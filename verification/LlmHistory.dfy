/** Which configuration a tenant gets, told from the writes of the run alone: what was saved last, whether it
    has been deleted since, and how the switch was set last. */
module LlmHistory {
  import opened TwoTier
  import opened ControlPlane
  import opened LlmResolver

  /** What the writes so far have asked for: nothing, or a configuration, saved for the n-th time since the
      tenant last had none, and switched on or off. */
  datatype Choice = Nothing | Chosen(config: Config, saves: nat, on: bool)

  function Asked(choice: Choice, keyed: bool, step: Step, tenant: string): Choice
  {
    match step
    case Save(_, t, config) =>
      if t != tenant || !keyed then choice
      else Chosen(config, if choice.Chosen? then choice.saves + 1 else 1, true)
    case Delete(_, t) => if t != tenant then choice else Nothing
    case Switch(_, t, active) =>
      if t != tenant || choice.Nothing? then choice else Chosen(choice.config, choice.saves, active)
    case _ => choice
  }

  function Wanted(choice: Choice, keyed: bool, run: seq<Step>, tenant: string): Choice
    decreases run
  {
    if run == [] then choice else Wanted(Asked(choice, keyed, run[0], tenant), keyed, run[1..], tenant)
  }

  /** What is there before the run. */
  function Initially(rows: Rows, tenant: string): Choice
  {
    if tenant in rows then Chosen(rows[tenant].config, rows[tenant].version, rows[tenant].active) else Nothing
  }

  /** The tenant's own configuration if one is saved and switched on, and the platform's otherwise; without an
      encryption key, none. */
  function Due(choice: Choice, keyed: bool, tenant: string): Outcome
  {
    if !keyed then NotConfigured
    else if choice.Chosen? && choice.on then Use(Own(tenant, choice.config, choice.saves))
    else Use(Platform)
  }

  // ---------- the table follows the writes ----------

  lemma {:induction false} DoFollows(s: System, step: Step, tenant: string)
    requires Allowed(s, step)
    ensures Do(s, step).keyed == s.keyed
    ensures Initially(Do(s, step).rows, tenant) == Asked(Initially(s.rows, tenant), s.keyed, step, tenant)
  {
  }

  lemma {:induction false} RunFollows(s: System, run: seq<Step>, tenant: string)
    requires AllowedRun(s, run)
    ensures Final(s, run).keyed == s.keyed
    ensures Initially(Final(s, run).rows, tenant) == Wanted(Initially(s.rows, tenant), s.keyed, run, tenant)
    decreases run
  {
    if run != [] {
      DoFollows(s, run[0], tenant);
      RunFollows(Do(s, run[0]), run[1..], tenant);
    }
  }

  lemma {:induction false} LoadIsDue(rows: Rows, keyed: bool, tenant: string)
    ensures Load(rows, keyed, tenant) == Due(Initially(rows, tenant), keyed, tenant)
  {
  }

  lemma {:induction false} AloneKeepsChoice(s: System, run: seq<Step>, tenant: string, choice: Choice)
    requires AllowedRun(s, run) && LeavesAlone(s, run, tenant)
    ensures Wanted(choice, s.keyed, run, tenant) == choice
    decreases run
  {
    if run != [] {
      DoFollows(s, run[0], tenant);
      AloneKeepsChoice(Do(s, run[0]), run[1..], tenant, choice);
    }
  }

  // ---------- what workers resolve ----------

  /** The worker that makes all writes of a tenant resolves at once what the writes of the run ask for. */
  lemma {:induction false} SoleWriterGetsItsDue(s0: System, run: seq<Step>, w: nat, tenant: string, up: bool)
    requires Fresh(s0) && w < |s0.memos| && tenant != "" && AllowedRun(s0, run) && WritesOnly(s0, run, tenant, w)
    ensures var s := Final(s0, run);
            w < |s.memos| && w < |s.plane.l1s|
            && Result(s, w, tenant, up)
               == Due(Wanted(Initially(s0.rows, tenant), s0.keyed, run, tenant), s0.keyed, tenant)
  {
    SoleWriterIsExact(s0, run, w, tenant, up);
    RunFollows(s0, run, tenant);
    LoadIsDue(Final(s0, run).rows, s0.keyed, tenant);
  }

  /** What the writes of a story ask for at its end. */
  function Asks(h: Story): Choice
    requires Possible(h)
  {
    Asked(Wanted(Initially(h.s0.rows, h.tenant), h.s0.keyed, h.before, h.tenant), h.s0.keyed, h.write, h.tenant)
  }

  lemma {:induction false} EndFollows(h: Story)
    requires Possible(h)
    ensures Initially(EndOf(h).rows, h.tenant) == Asks(h) && EndOf(h).keyed == h.s0.keyed
  {
    var s := Final(h.s0, h.before);
    RunFollows(h.s0, h.before, h.tenant);
    DoFollows(s, h.write, h.tenant);
    RunFollows(Do(s, h.write), h.after, h.tenant);
    AloneKeepsChoice(Do(s, h.write), h.after, h.tenant, Asks(h));
  }

  /** Every worker does so two pointer lifetimes after the last write, if no deleted configuration was saved
      again. */
  lemma {:induction false} EveryWorkerGetsItsDue(h: Story, w: nat, up: bool)
    requires Possible(h) && KeepsIncarnation(h) && w < |h.s0.memos|
    requires EndOf(h).plane.now > Final(h.s0, h.before).plane.now + 2.0 * CONTROL_PLANE
    ensures w < |EndOf(h).memos| && w < |EndOf(h).plane.l1s|
    ensures Result(EndOf(h), w, h.tenant, up) == Due(Asks(h), h.s0.keyed, h.tenant)
  {
    StaleForTwoLifetimes(h, w, up);
    EndFollows(h);
    LoadIsDue(EndOf(h).rows, h.s0.keyed, h.tenant);
  }

  // ---------- by the last write ----------

  /** Switched off, or deleted: the platform's configuration. */
  lemma {:induction false} RevertedMeansPlatform(h: Story, w: nat, up: bool)
    requires Possible(h) && KeepsIncarnation(h) && w < |h.s0.memos|
    requires EndOf(h).plane.now > Final(h.s0, h.before).plane.now + 2.0 * CONTROL_PLANE
    requires h.write.Delete? || (h.write.Switch? && !h.write.active)
    ensures w < |EndOf(h).memos| && w < |EndOf(h).plane.l1s|
    ensures Result(EndOf(h), w, h.tenant, up) == if h.s0.keyed then Use(Platform) else NotConfigured
  {
    EveryWorkerGetsItsDue(h, w, up);
  }

  /** Saved: exactly what was saved. */
  lemma {:induction false} SavedIsUsed(h: Story, w: nat, up: bool)
    requires Possible(h) && KeepsIncarnation(h) && w < |h.s0.memos|
    requires EndOf(h).plane.now > Final(h.s0, h.before).plane.now + 2.0 * CONTROL_PLANE
    requires h.write.Save?
    ensures w < |EndOf(h).memos| && w < |EndOf(h).plane.l1s|
    ensures var r := Result(EndOf(h), w, h.tenant, up);
            r.Use? && r.resolved.Own? && r.resolved.tenant == h.tenant && r.resolved.config == h.write.config
  {
    RunFollows(h.s0, h.before, h.tenant);
    EveryWorkerGetsItsDue(h, w, up);
  }

  /** Switched on: what was saved last, or the platform's if nothing is. */
  lemma {:induction false} SwitchedOnIsUsed(h: Story, w: nat, up: bool)
    requires Possible(h) && KeepsIncarnation(h) && w < |h.s0.memos|
    requires EndOf(h).plane.now > Final(h.s0, h.before).plane.now + 2.0 * CONTROL_PLANE
    requires h.write.Switch? && h.write.active && h.s0.keyed
    ensures w < |EndOf(h).memos| && w < |EndOf(h).plane.l1s|
    ensures var r, last := Result(EndOf(h), w, h.tenant, up),
                           Wanted(Initially(h.s0.rows, h.tenant), true, h.before, h.tenant);
            if last.Nothing? then r == Use(Platform)
            else r.Use? && r.resolved.Own? && r.resolved.config == last.config
  {
    EveryWorkerGetsItsDue(h, w, up);
  }

  /** Without a tenant: the platform's configuration, key or not, and nothing is remembered. */
  lemma {:induction false} NoTenantMeansPlatform(s: System, w: nat, getUp: bool, setUp: bool)
    requires Allowed(s, Resolve(w, "", getUp, setUp))
    ensures Result(s, w, "", getUp) == Use(Platform) && Do(s, Resolve(w, "", getUp, setUp)) == s
  {
  }

  /** A configuration that is saved without the encryption key is not, and nothing else happens either. */
  lemma {:induction false} RefusedSaveDoesNothing(s: System, w: nat, tenant: string, config: Config)
    requires Allowed(s, Save(w, tenant, config)) && !s.keyed
    ensures Do(s, Save(w, tenant, config)) == s
  {
  }

  /** Whether a worker reads a pointer, and remembers a configuration under its number. */
  predicate Remembers(s: System, w: nat, tenant: string, up: bool)
    requires w < |s.memos| && w < |s.plane.l1s|
  {
    var pointer := LookupResult(TiersOf(s.plane, w), CacheKey(Byok(tenant)), 60.0, s.plane.now, up);
    pointer.Some? && pointer.value.Version? && (tenant, pointer.value.number) in s.memos[w]
  }

  /** What a resolution leaves behind: the pointer was looked up; what was loaded because nothing was remembered
      is remembered under its number, zero for the platform's, and the pointer to it is put into both tiers. */
  lemma {:induction false} ResolveDoes(s: System, w: nat, tenant: string, getUp: bool, setUp: bool)
    requires Allowed(s, Resolve(w, tenant, getUp, setUp)) && tenant != ""
    ensures var s', key := Do(s, Resolve(w, tenant, getUp, setUp)), CacheKey(Byok(tenant));
            var now, max := s.plane.now, s.plane.max;
            var looked := AfterLookup(TiersOf(s.plane, w), key, 60.0, now, getUp, max);
            s'.rows == s.rows && s'.keyed == s.keyed && s'.plane.db == s.plane.db
            && (forall v :: 0 <= v < |s.memos| && v != w ==> s'.memos[v] == s.memos[v])
            && if Remembers(s, w, tenant, getUp) || !s.keyed
               then s'.memos[w] == s.memos[w] && TiersOf(s'.plane, w) == looked
               else
                 var r := Result(s, w, tenant, getUp);
                 r.Use? && var number := if r.resolved.Own? then r.resolved.version else 0;
                 s'.memos[w] == s.memos[w][(tenant, number) := r.resolved]
                 && TiersOf(s'.plane, w) == AfterPut(looked, key, Version(number), 60.0, now, setUp, max)
  {
  }
}
