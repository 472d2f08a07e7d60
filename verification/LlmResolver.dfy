/** Tenant LLM configurations and their resolution: a table row per tenant, a pointer to the effective
    version in the two-tier cache, and a memo of resolved configurations in every worker. */
module LlmResolver {
  import opened Wrappers
  import opened LruCache
  import opened TwoTier
  import opened ControlPlane

  datatype Config = Config(provider: string, baseUrl: Option<string>, apiKey: string, reasoningModel: string,
                           fastModel: string, embeddingModel: Option<string>)

  datatype Row = Row(config: Config, version: nat, active: bool)

  type Rows = map<string, Row>

  datatype Resolved = Platform | Own(tenant: string, config: Config, version: nat)

  datatype Outcome = Use(resolved: Resolved) | NotConfigured

  /** Resolved configurations by tenant and version; nothing in it expires. */
  type Memo = map<(string, nat), Resolved>

  // ---------- one resolution and one write, as functions ----------

  /** What the active row says; a missing or disabled row means the platform configuration. */
  function Effective(rows: Rows, tenant: string): Resolved
  {
    if tenant in rows && rows[tenant].active then Own(tenant, rows[tenant].config, rows[tenant].version) else Platform
  }

  function VersionOf(r: Resolved): nat
  {
    if r.Own? then r.version else 0
  }

  /** Loading demands the encryption key before it looks at the row. */
  function Load(rows: Rows, keyed: bool, tenant: string): Outcome
  {
    if keyed then Use(Effective(rows, tenant)) else NotConfigured
  }

  /** The memo entry that the cached pointer leads to. */
  function Hit(t: Tiers<Fact>, memo: Memo, tenant: string, now: real, up: bool): Option<Resolved>
  {
    var cached := LookupResult(t, CacheKey(Byok(tenant)), CONTROL_PLANE, now, up);
    if cached.Some? && cached.value.Version? && (tenant, cached.value.number) in memo
    then Some(memo[(tenant, cached.value.number)])
    else None
  }

  function Resolution(t: Tiers<Fact>, memo: Memo, rows: Rows, keyed: bool, tenant: string, now: real, up: bool): Outcome
  {
    if tenant == "" then Use(Platform) else
    match Hit(t, memo, tenant, now, up)
    case Some(r) => Use(r)
    case None => Load(rows, keyed, tenant)
  }

  function MemoAfterResolve(t: Tiers<Fact>, memo: Memo, rows: Rows, keyed: bool, tenant: string, now: real,
                            up: bool): Memo
  {
    if tenant == "" || Hit(t, memo, tenant, now, up).Some? || !keyed then memo
    else memo[(tenant, VersionOf(Effective(rows, tenant))) := Effective(rows, tenant)]
  }

  function TiersAfterResolve(t: Tiers<Fact>, memo: Memo, rows: Rows, keyed: bool, tenant: string, now: real,
                             getUp: bool, setUp: bool, max: nat): Tiers<Fact>
  {
    if tenant == "" then t else
    var key := CacheKey(Byok(tenant));
    var looked := AfterLookup(t, key, CONTROL_PLANE, now, getUp, max);
    if Hit(t, memo, tenant, now, getUp).Some? || !keyed then looked
    else AfterPut(looked, key, Version(VersionOf(Effective(rows, tenant))), CONTROL_PLANE, now, setUp, max)
  }

  function Forget(memo: Memo, tenant: string): Memo
  {
    map k | k in memo && k.0 != tenant :: memo[k]
  }

  /** Saving a configuration starts at version 1 and counts up while the row lives. */
  function RowsAfterSet(rows: Rows, tenant: string, config: Config): Rows
  {
    rows[tenant := Row(config, if tenant in rows then rows[tenant].version + 1 else 1, true)]
  }

  /** Switching the status leaves the version alone. */
  function RowsAfterStatus(rows: Rows, tenant: string, active: bool): Rows
  {
    if tenant in rows then rows[tenant := rows[tenant].(active := active)] else rows
  }

  // ---------- the worker's objects ----------

  class ProviderTable {
    var rows: Rows

    constructor ()
      ensures rows == map[]
    {
      rows := map[];
    }
  }

  class Resolver {
    const cache: CacheService<Fact>
    const table: ProviderTable
    const keyed: bool
    var memo: Memo

    ghost predicate Valid()
      reads cache, cache.l1
    {
      cache.Valid()
    }

    constructor (cache: CacheService<Fact>, table: ProviderTable, keyed: bool)
      requires cache.Valid()
      ensures Valid() && this.cache == cache && this.table == table && this.keyed == keyed && memo == map[]
    {
      this.cache := cache;
      this.table := table;
      this.keyed := keyed;
      this.memo := map[];
    }

    method Resolve(tenant: string, now: real, getUp: bool, setUp: bool) returns (r: Outcome)
      requires Valid()
      modifies this, cache.l1, cache.l2
      ensures Valid()
      ensures r == Resolution(old(cache.State()), old(memo), table.rows, keyed, tenant, now, getUp)
      ensures memo == MemoAfterResolve(old(cache.State()), old(memo), table.rows, keyed, tenant, now, getUp)
      ensures cache.State() == TiersAfterResolve(old(cache.State()), old(memo), table.rows, keyed, tenant, now, getUp,
                                                 setUp, cache.l1.maxSize)
    {
      if tenant == "" {
        return Use(Platform);
      }
      var cached := cache.Lookup(CacheKey(Byok(tenant)), CONTROL_PLANE, now, getUp);
      if cached.Some? && cached.value.Version? && (tenant, cached.value.number) in memo {
        return Use(memo[(tenant, cached.value.number)]);
      }
      r := Load(table.rows, keyed, tenant);
      if r.Use? {
        var version := VersionOf(r.resolved);
        memo := memo[(tenant, version) := r.resolved];
        cache.Put(CacheKey(Byok(tenant)), Version(version), CONTROL_PLANE, now, setUp);
      }
    }

    method InvalidateResolution(tenant: string)
      modifies this
      ensures memo == Forget(old(memo), tenant)
    {
      var stale := set k | k in memo && k.0 == tenant;
      while stale != {}
        invariant forall k :: k in stale ==> k.0 == tenant
        invariant forall k :: k in memo <==> k in old(memo) && (k.0 == tenant ==> k in stale)
        invariant forall k :: k in memo ==> memo[k] == old(memo)[k]
        decreases |stale|
      {
        var k :| k in stale;
        memo := memo - {k};
        stale := stale - {k};
      }
    }

    method SetProviderConfig(tenant: string, config: Config) returns (saved: bool)
      modifies this, table
      ensures saved == keyed
      ensures table.rows == if keyed then RowsAfterSet(old(table.rows), tenant, config) else old(table.rows)
      ensures memo == if keyed then Forget(old(memo), tenant) else old(memo)
    {
      if !keyed {
        return false;
      }
      table.rows := RowsAfterSet(table.rows, tenant, config);
      InvalidateResolution(tenant);
      saved := true;
    }

    method DeleteProviderConfig(tenant: string) returns (deleted: bool)
      modifies this, table
      ensures deleted == (tenant in old(table.rows))
      ensures table.rows == old(table.rows) - {tenant} && memo == Forget(old(memo), tenant)
    {
      deleted := tenant in table.rows;
      table.rows := table.rows - {tenant};
      InvalidateResolution(tenant);
    }

    method SetStatus(tenant: string, active: bool) returns (updated: bool)
      modifies this, table
      ensures updated == (tenant in old(table.rows))
      ensures table.rows == RowsAfterStatus(old(table.rows), tenant, active) && memo == Forget(old(memo), tenant)
    {
      updated := tenant in table.rows;
      table.rows := RowsAfterStatus(table.rows, tenant, active);
      InvalidateResolution(tenant);
    }
  }

  // ---------- all workers ----------

  /** The workers' caches, the table, the memo of each worker, and whether the encryption key is set. */
  datatype System = System(plane: Cluster, rows: Rows, memos: seq<Memo>, keyed: bool)

  datatype Step =
    | Plane(e: Event)
    | Resolve(w: nat, tenant: string, getUp: bool, setUp: bool)
    | Save(w: nat, tenant: string, config: Config)
    | Delete(w: nat, tenant: string)
    | Switch(w: nat, tenant: string, active: bool)

  /** Pointers are written and read by the steps below only, never as status or grant. */
  predicate AboutPointer(e: Event)
  {
    e.WriteVersion? || ((e.Check? || e.Look? || e.Refill?) && e.subject.Byok?)
  }

  predicate Allowed(s: System, step: Step)
  {
    match step
    case Plane(e) => Legal(s.plane, e) && !AboutPointer(e)
    case _ => step.w < |s.memos| && step.w < |s.plane.l1s|
  }

  /** The tenant whose row the step may change. */
  function Changes(s: System, step: Step): Option<string>
  {
    match step
    case Save(_, tenant, _) => if s.keyed then Some(tenant) else None
    case Delete(_, tenant) => Some(tenant)
    case Switch(_, tenant, _) => Some(tenant)
    case _ => None
  }

  function RowsAfter(s: System, step: Step): Rows
  {
    match step
    case Save(_, tenant, config) => if s.keyed then RowsAfterSet(s.rows, tenant, config) else s.rows
    case Delete(_, tenant) => s.rows - {tenant}
    case Switch(_, tenant, active) => RowsAfterStatus(s.rows, tenant, active)
    case _ => s.rows
  }

  function Do(s: System, step: Step): System
    requires Allowed(s, step)
  {
    match step
    case Plane(e) => s.(plane := Act(s.plane, e))
    case Resolve(w, tenant, getUp, setUp) =>
      var t, now := TiersOf(s.plane, w), s.plane.now;
      s.(plane := WithTiers(s.plane, w, TiersAfterResolve(t, s.memos[w], s.rows, s.keyed, tenant, now, getUp, setUp,
                                                          s.plane.max)),
         memos := s.memos[w := MemoAfterResolve(t, s.memos[w], s.rows, s.keyed, tenant, now, getUp)])
    case _ =>
      if Changes(s, step).None? then s else
      var rows := RowsAfter(s, step);
      s.(rows := rows,
         memos := s.memos[step.w := Forget(s.memos[step.w], step.tenant)],
         plane := Act(s.plane, WriteVersion(step.tenant, VersionOf(Effective(rows, step.tenant)))))
  }

  function Result(s: System, w: nat, tenant: string, up: bool): Outcome
    requires w < |s.memos| && w < |s.plane.l1s|
  {
    Resolution(TiersOf(s.plane, w), s.memos[w], s.rows, s.keyed, tenant, s.plane.now, up)
  }

  ghost predicate AllowedRun(s: System, run: seq<Step>)
    decreases run
  {
    run == [] || (Allowed(s, run[0]) && AllowedRun(Do(s, run[0]), run[1..]))
  }

  function Final(s: System, run: seq<Step>): System
    requires AllowedRun(s, run)
    decreases run
  {
    if run == [] then s else Final(Do(s, run[0]), run[1..])
  }

  /** No step of the run changes the tenant's row. */
  ghost predicate LeavesAlone(s: System, run: seq<Step>, tenant: string)
    requires AllowedRun(s, run)
    decreases run
  {
    run == [] || (Changes(s, run[0]) != Some(tenant) && LeavesAlone(Do(s, run[0]), run[1..], tenant))
  }

  ghost predicate Fresh(s: System)
  {
    Started(s.plane) && |s.memos| == |s.plane.l1s| && Coupled(s)
    && forall w :: 0 <= w < |s.memos| ==> s.memos[w] == map[]
  }

  /** The pointer that a lookup would find for a tenant is the version of the effective configuration. */
  ghost predicate Coupled(s: System)
  {
    (forall tenant :: Truth(s.plane.db, Byok(tenant)) == Some(Version(VersionOf(Effective(s.rows, tenant)))))
    && forall tenant :: tenant in s.rows ==> s.rows[tenant].version > 0
  }

  /** A resolution is a lookup of the pointer, followed perhaps by caching the present version. */
  lemma {:induction false} ResolveOnPlane(s: System, w: nat, tenant: string, getUp: bool, setUp: bool)
    requires Coupled(s) && Allowed(s, Resolve(w, tenant, getUp, setUp))
    ensures var looked := Act(s.plane, Look(w, Byok(tenant), getUp));
            var plane := Do(s, Resolve(w, tenant, getUp, setUp)).plane;
            plane == s.plane || plane == looked || plane == Act(looked, Refill(w, Byok(tenant), setUp))
  {
    assert Truth(s.plane.db, Byok(tenant)) == Some(Version(VersionOf(Effective(s.rows, tenant))));
    if tenant == "" {
      assert s.plane.l1s[w := s.plane.l1s[w]] == s.plane.l1s;
    }
  }

  lemma {:induction false} ActKeepsPointer(s: Cluster, e: Event, tenant: string)
    requires Legal(s, e)
    ensures Truth(Act(s, e).db, Byok(tenant))
         == if e.WriteVersion? && e.tenant == tenant then Some(Version(e.version)) else Truth(s.db, Byok(tenant))
  {
  }

  lemma {:induction false} DoKeepsCoupled(s: System, step: Step)
    requires Coupled(s) && Allowed(s, step)
    ensures Coupled(Do(s, step))
  {
    var s' := Do(s, step);
    forall tenant
      ensures Truth(s'.plane.db, Byok(tenant)) == Some(Version(VersionOf(Effective(s'.rows, tenant))))
    {
      assert Truth(s.plane.db, Byok(tenant)) == Some(Version(VersionOf(Effective(s.rows, tenant))));
      if step.Plane? {
        ActKeepsPointer(s.plane, step.e, tenant);
      } else if !step.Resolve? && Changes(s, step).Some? {
        ActKeepsPointer(s.plane, WriteVersion(step.tenant, VersionOf(Effective(RowsAfter(s, step), step.tenant))),
                        tenant);
      }
    }
  }

  /** What every reachable state satisfies. */
  ghost predicate Sound(s: System)
  {
    Sane(s.plane) && Coupled(s) && |s.memos| == |s.plane.l1s|
    && (!s.keyed ==> forall w :: 0 <= w < |s.memos| ==> s.memos[w] == map[])
  }

  lemma {:induction false} DoKeepsSound(s: System, step: Step)
    requires Sound(s) && Allowed(s, step)
    ensures Sound(Do(s, step)) && |Do(s, step).memos| == |s.memos| && Do(s, step).keyed == s.keyed
  {
    DoKeepsCoupled(s, step);
    match step
    case Plane(e) => ActKeepsSane(s.plane, e);
    case Resolve(w, tenant, getUp, setUp) =>
      ResolveOnPlane(s, w, tenant, getUp, setUp);
      ActKeepsSane(s.plane, Look(w, Byok(tenant), getUp));
      ActKeepsSane(Act(s.plane, Look(w, Byok(tenant), getUp)), Refill(w, Byok(tenant), setUp));
    case _ =>
      ActKeepsSane(s.plane, WriteVersion(step.tenant, VersionOf(Effective(RowsAfter(s, step), step.tenant))));
  }

  // ---------- the worker that makes all writes of a tenant is never outdated ----------

  ghost predicate WritesOnly(s: System, run: seq<Step>, tenant: string, w: nat)
    requires AllowedRun(s, run)
    decreases run
  {
    run == [] || ((Changes(s, run[0]) == Some(tenant) ==> run[0].w == w)
                  && WritesOnly(Do(s, run[0]), run[1..], tenant, w))
  }

  /** The memo holds nothing about the tenant but its effective configuration. */
  ghost predicate Exact(s: System, w: nat, tenant: string)
  {
    w < |s.memos|
    && forall n: nat :: (tenant, n) in s.memos[w] ==> s.memos[w][(tenant, n)] == Effective(s.rows, tenant)
  }

  lemma {:induction false} DoKeepsExact(s: System, step: Step, w: nat, tenant: string)
    requires Sound(s) && Exact(s, w, tenant) && Allowed(s, step)
    requires Changes(s, step) == Some(tenant) ==> step.w == w
    ensures Exact(Do(s, step), w, tenant)
  {
  }

  lemma {:induction false} RunKeepsExact(s: System, run: seq<Step>, w: nat, tenant: string)
    requires Sound(s) && Exact(s, w, tenant) && AllowedRun(s, run) && WritesOnly(s, run, tenant, w)
    ensures Exact(Final(s, run), w, tenant) && Sound(Final(s, run))
    decreases run
  {
    if run != [] {
      DoKeepsExact(s, run[0], w, tenant);
      DoKeepsSound(s, run[0]);
      RunKeepsExact(Do(s, run[0]), run[1..], w, tenant);
    }
  }

  /** Whatever the other workers and the shared tier do, and even if a configuration is deleted and
      created again: what the writing worker resolves is what loading the row now gives. */
  lemma {:induction false} SoleWriterIsExact(s0: System, run: seq<Step>, w: nat, tenant: string, up: bool)
    requires Fresh(s0) && w < |s0.memos| && tenant != "" && AllowedRun(s0, run) && WritesOnly(s0, run, tenant, w)
    ensures var s := Final(s0, run);
            w < |s.memos| && w < |s.plane.l1s| && Result(s, w, tenant, up) == Load(s.rows, s.keyed, tenant)
  {
    RunKeepsExact(s0, run, w, tenant);
  }

  /** With no key, every resolution fails, even for a tenant that never had a configuration; with
      the key, such a tenant gets the platform configuration. */
  lemma {:induction false} UnconfiguredTenantNeedsKey(s0: System, run: seq<Step>, w: nat, tenant: string, up: bool)
    requires Fresh(s0) && w < |s0.memos| && tenant != "" && tenant !in s0.rows
    requires AllowedRun(s0, run) && LeavesAlone(s0, run, tenant)
    ensures var s := Final(s0, run);
            w < |s.memos| && w < |s.plane.l1s| && (Result(s, w, tenant, up) == Use(Platform) <==> s.keyed)
  {
    LeftAloneIsWrittenByAny(s0, run, tenant, w);
    SoleWriterIsExact(s0, run, w, tenant, up);
  }

  lemma {:induction false} LeftAloneIsWrittenByAny(s: System, run: seq<Step>, tenant: string, w: nat)
    requires AllowedRun(s, run) && LeavesAlone(s, run, tenant)
    ensures WritesOnly(s, run, tenant, w)
    ensures tenant !in s.rows ==> tenant !in Final(s, run).rows
    decreases run
  {
    if run != [] {
      LeftAloneIsWrittenByAny(Do(s, run[0]), run[1..], tenant, w);
    }
  }

  // ---------- other workers are outdated for at most two pointer lifetimes ----------

  /** Whether the tenant has lost a row by the end of the run, given whether it had before. */
  ghost predicate Gone(s: System, run: seq<Step>, tenant: string, gone: bool)
    requires AllowedRun(s, run)
    decreases run
  {
    if run == [] then gone
    else Gone(Do(s, run[0]), run[1..], tenant, gone || Removes(s, run[0], tenant))
  }

  predicate Removes(s: System, step: Step, tenant: string)
  {
    step.Delete? && step.tenant == tenant && tenant in s.rows
  }

  predicate Recreates(s: System, step: Step, tenant: string, gone: bool)
  {
    gone && step.Save? && step.tenant == tenant && s.keyed
  }

  /** No configuration of the tenant is saved once one has been deleted. */
  ghost predicate NeverRecreated(s: System, run: seq<Step>, tenant: string, gone: bool)
    requires AllowedRun(s, run)
    decreases run
  {
    run == []
    || (!Recreates(s, run[0], tenant, gone)
        && NeverRecreated(Do(s, run[0]), run[1..], tenant, gone || Removes(s, run[0], tenant)))
  }

  /** A memo entry of version n is what the row said at version n. */
  ghost predicate Faithful(memo: Memo, rows: Rows, tenant: string, gone: bool)
  {
    forall n: nat :: (tenant, n) in memo ==>
      if n == 0 then memo[(tenant, n)] == Platform
      else if tenant in rows then
        n <= rows[tenant].version
        && (n == rows[tenant].version ==> memo[(tenant, n)] == Own(tenant, rows[tenant].config, n))
      else gone
  }

  ghost predicate AllFaithful(s: System, tenant: string, gone: bool)
  {
    (gone ==> tenant !in s.rows) && forall w :: 0 <= w < |s.memos| ==> Faithful(s.memos[w], s.rows, tenant, gone)
  }

  lemma {:induction false} DoKeepsFaithful(s: System, step: Step, tenant: string, gone: bool)
    requires Sound(s) && AllFaithful(s, tenant, gone) && Allowed(s, step) && !Recreates(s, step, tenant, gone)
    ensures AllFaithful(Do(s, step), tenant, gone || Removes(s, step, tenant))
  {
    var s', gone' := Do(s, step), gone || Removes(s, step, tenant);
    forall w | 0 <= w < |s'.memos| ensures Faithful(s'.memos[w], s'.rows, tenant, gone') {
      assert Faithful(s.memos[w], s.rows, tenant, gone);
    }
  }

  lemma {:induction false} RunKeepsFaithful(s: System, run: seq<Step>, tenant: string, gone: bool)
    requires Sound(s) && AllFaithful(s, tenant, gone) && AllowedRun(s, run) && NeverRecreated(s, run, tenant, gone)
    ensures AllFaithful(Final(s, run), tenant, Gone(s, run, tenant, gone)) && Sound(Final(s, run))
    ensures |Final(s, run).memos| == |s.memos| && Final(s, run).keyed == s.keyed
    decreases run
  {
    if run != [] {
      DoKeepsFaithful(s, run[0], tenant, gone);
      DoKeepsSound(s, run[0]);
      RunKeepsFaithful(Do(s, run[0]), run[1..], tenant, gone || Removes(s, run[0], tenant));
    }
  }

  ghost predicate Pointed(s: System, tenant: string, version: nat, limit: real)
  {
    Settled(s.plane, Byok(tenant), Version(version), limit)
  }

  lemma {:induction false} DoKeepsPointed(s: System, step: Step, tenant: string, version: nat, limit: real)
    requires Sound(s) && Pointed(s, tenant, version, limit) && Allowed(s, step) && Changes(s, step) != Some(tenant)
    ensures Pointed(Do(s, step), tenant, version, limit)
  {
    var key, fact := Byok(tenant), Version(version);
    match step
    case Plane(e) => ActKeepsSettled(s.plane, e, key, fact, limit);
    case Resolve(w, other, getUp, setUp) =>
      ResolveOnPlane(s, w, other, getUp, setUp);
      ActKeepsSettled(s.plane, Look(w, Byok(other), getUp), key, fact, limit);
      ActKeepsSettled(Act(s.plane, Look(w, Byok(other), getUp)), Refill(w, Byok(other), setUp), key, fact, limit);
    case _ =>
      if Changes(s, step).Some? {
        ActKeepsSettled(s.plane, WriteVersion(step.tenant, VersionOf(Effective(RowsAfter(s, step), step.tenant))), key,
                        fact, limit);
      }
  }

  lemma {:induction false} RunKeepsPointed(s: System, run: seq<Step>, tenant: string, version: nat, limit: real)
    requires Sound(s) && Pointed(s, tenant, version, limit) && AllowedRun(s, run) && LeavesAlone(s, run, tenant)
    ensures Pointed(Final(s, run), tenant, version, limit)
    ensures Effective(Final(s, run).rows, tenant) == Effective(s.rows, tenant)
    decreases run
  {
    if run != [] {
      DoKeepsPointed(s, run[0], tenant, version, limit);
      DoKeepsSound(s, run[0]);
      RunKeepsPointed(Do(s, run[0]), run[1..], tenant, version, limit);
    }
  }

  /** A run `before`, a write of the tenant's row, a run `after` that leaves the row alone. */
  datatype Story = Story(s0: System, before: seq<Step>, write: Step, after: seq<Step>, tenant: string)

  ghost predicate Possible(h: Story)
  {
    Fresh(h.s0) && h.tenant != "" && AllowedRun(h.s0, h.before)
    && var s := Final(h.s0, h.before);
    Allowed(s, h.write) && Changes(s, h.write) == Some(h.tenant)
    && AllowedRun(Do(s, h.write), h.after) && LeavesAlone(Do(s, h.write), h.after, h.tenant)
  }

  ghost predicate KeepsIncarnation(h: Story)
    requires Possible(h)
  {
    var s := Final(h.s0, h.before);
    var gone := Gone(h.s0, h.before, h.tenant, false);
    NeverRecreated(h.s0, h.before, h.tenant, false) && !Recreates(s, h.write, h.tenant, gone)
  }

  function EndOf(h: Story): System
    requires Possible(h)
  {
    Final(Do(Final(h.s0, h.before), h.write), h.after)
  }

  /** If the tenant's configuration was never recreated: more than two pointer lifetimes after its last
      write, every worker resolves exactly what loading the row gives, with any workers restarted,
      evicting, or cut off from the shared tier. */
  lemma {:induction false} StaleForTwoLifetimes(h: Story, w: nat, up: bool)
    requires Possible(h) && KeepsIncarnation(h) && w < |h.s0.memos|
    requires EndOf(h).plane.now > Final(h.s0, h.before).plane.now + 2.0 * CONTROL_PLANE
    ensures w < |EndOf(h).memos| && w < |EndOf(h).plane.l1s|
    ensures Result(EndOf(h), w, h.tenant, up) == Load(EndOf(h).rows, h.s0.keyed, h.tenant)
  {
    var s, tenant := Final(h.s0, h.before), h.tenant;
    var gone := Gone(h.s0, h.before, tenant, false);
    RunKeepsFaithful(h.s0, h.before, tenant, false);
    DoKeepsFaithful(s, h.write, tenant, gone);
    DoKeepsSound(s, h.write);
    ChangePoints(s, h.write, tenant);
    PointedEndResolves(Do(s, h.write), h.after, tenant, gone || Removes(s, h.write, tenant),
                       s.plane.now + CONTROL_PLANE, w, up);
  }

  /** A write leaves no other pointer about than those that are gone within two lifetimes. */
  lemma {:induction false} ChangePoints(s: System, step: Step, tenant: string)
    requires Sound(s) && Allowed(s, step) && Changes(s, step) == Some(tenant)
    ensures var s' := Do(s, step);
            Pointed(s', tenant, VersionOf(Effective(s'.rows, tenant)), s.plane.now + CONTROL_PLANE)
  {
    WriteSettles(s.plane, WriteVersion(tenant, VersionOf(Effective(RowsAfter(s, step), tenant))));
  }

  lemma {:induction false} PointedEndResolves(s: System, run: seq<Step>, tenant: string, gone: bool, limit: real,
                                              w: nat, up: bool)
    requires Sound(s) && AllFaithful(s, tenant, gone) && AllowedRun(s, run) && LeavesAlone(s, run, tenant)
    requires Pointed(s, tenant, VersionOf(Effective(s.rows, tenant)), limit)
    requires w < |s.memos| && tenant != "" && Final(s, run).plane.now > limit + CONTROL_PLANE
    ensures var s' := Final(s, run);
            w < |s'.memos| && w < |s'.plane.l1s| && Result(s', w, tenant, up) == Load(s'.rows, s.keyed, tenant)
  {
    AloneIsNotRecreated(s, run, tenant, gone);
    RunKeepsFaithful(s, run, tenant, gone);
    RunKeepsPointed(s, run, tenant, VersionOf(Effective(s.rows, tenant)), limit);
    PointedResolves(Final(s, run), w, tenant, up, Gone(s, run, tenant, gone), limit);
  }

  lemma {:induction false} AloneIsNotRecreated(s: System, run: seq<Step>, tenant: string, gone: bool)
    requires AllowedRun(s, run) && LeavesAlone(s, run, tenant)
    ensures NeverRecreated(s, run, tenant, gone)
    decreases run
  {
    if run != [] {
      AloneIsNotRecreated(Do(s, run[0]), run[1..], tenant, gone || Removes(s, run[0], tenant));
    }
  }

  lemma {:induction false} PointedResolves(s: System, w: nat, tenant: string, up: bool, gone: bool, limit: real)
    requires Sound(s) && AllFaithful(s, tenant, gone) && w < |s.memos| && tenant != ""
    requires Pointed(s, tenant, VersionOf(Effective(s.rows, tenant)), limit) && s.plane.now > limit + CONTROL_PLANE
    ensures Result(s, w, tenant, up) == Load(s.rows, s.keyed, tenant)
  {
    var t, key, fact := TiersOf(s.plane, w), CacheKey(Byok(tenant)), Version(VersionOf(Effective(s.rows, tenant)));
    assert Current(t, key, fact, limit);
    CurrentAnswers(t, key, fact, limit, CONTROL_PLANE, s.plane.now, up);
    assert Faithful(s.memos[w], s.rows, tenant, gone);
  }

  // ---------- a recreated configuration can be outdated for ever ----------

  function TwoWorkers(): System
  {
    System(Cluster(0.0, map[], [[], []], map[], 1000), map[], [map[], map[]], true)
  }

  /** One worker saves, deletes and saves again; the other has resolved the first configuration. */
  function Recreation(first: Config, second: Config): seq<Step>
  {
    [Save(0, "t", first), Resolve(1, "t", true, true), Delete(0, "t"), Save(0, "t", second)]
  }

  /** 61 seconds pass, then the first worker resolves, and then the second. */
  const ROUND: seq<Step> := [Plane(Tick(61.0)), Resolve(0, "t", true, true), Resolve(1, "t", true, true)]

  function Rounds(n: nat): seq<Step>
  {
    if n == 0 then [] else ROUND + Rounds(n - 1)
  }

  /** The second worker's pointer says 1 and its memo for version 1 is the first configuration. */
  ghost predicate Stuck(s: System, first: Config, second: Config)
  {
    var key := CacheKey(Byok("t"));
    s.keyed && s.plane.max == 1000 && |s.memos| == 2 && |s.plane.l1s| == 2
    && "t" in s.rows && s.rows["t"] == Row(second, 1, true)
    && ("t", 1) in s.memos[1] && s.memos[1][("t", 1)] == Own("t", first, 1)
    && AtMost(s.plane.l1s[0], key, s.plane.now)
    && s.plane.l1s[1] == [Entry(key, Version(1), s.plane.now)]
    && key in s.plane.l2 && s.plane.l2[key] == Cell(Version(1), s.plane.now + CONTROL_PLANE)
  }

  predicate AtMost(l1: Store<Fact>, key: string, at: real)
  {
    l1 == [] || l1 == [Entry(key, Version(1), at)]
  }

  lemma {:induction false} FinalStep(s: System, step: Step, rest: seq<Step>)
    ensures AllowedRun(s, [step] + rest) == (Allowed(s, step) && AllowedRun(Do(s, step), rest))
    ensures AllowedRun(s, [step] + rest) ==> Final(s, [step] + rest) == Final(Do(s, step), rest)
    ensures AllowedRun(s, [step] + rest) ==> forall tenant ::
              LeavesAlone(s, [step] + rest, tenant)
              == (Changes(s, step) != Some(tenant) && LeavesAlone(Do(s, step), rest, tenant))
  {
    assert ([step] + rest)[1..] == rest;
  }

  /** Reading an expired entry empties a store that holds nothing else. */
  lemma {:induction false} ExpiredGet(l1: Store<Fact>, key: string, at: real, now: real)
    requires AtMost(l1, key, at) && now - at > CONTROL_PLANE
    ensures GetResult(l1, key, CONTROL_PLANE, now) == None && AfterGet(l1, key, CONTROL_PLANE, now) == []
  {
    if l1 != [] {
      assert l1[1..] == [];
      assert Without(l1[1..], key) == [];
      assert Find(l1, key) == Some(l1[0]);
    }
  }

  /** A resolution that finds no live pointer loads the row. */
  lemma {:induction false} ResolveLoads(s: System, w: nat, at: real)
    requires var key := CacheKey(Byok("t"));
             s.keyed && s.plane.max > 0 && w < |s.memos| && w < |s.plane.l1s|
             && AtMost(s.plane.l1s[w], key, at) && s.plane.now - at > CONTROL_PLANE
             && (key in s.plane.l2 ==> s.plane.l2[key].expires < s.plane.now)
             && "t" in s.rows && s.rows["t"].active && s.rows["t"].version == 1
    ensures var key, s' := CacheKey(Byok("t")), Do(s, Resolve(w, "t", true, true));
            s' == s.(plane := s.plane.(l1s := s.plane.l1s[w := [Entry(key, Version(1), s.plane.now)]],
                                       l2 := s.plane.l2[key := Cell(Version(1), s.plane.now + CONTROL_PLANE)]),
                     memos := s.memos[w := s.memos[w][("t", 1) := Own("t", s.rows["t"].config, 1)]])
  {
    ExpiredGet(s.plane.l1s[w], CacheKey(Byok("t")), at, s.plane.now);
    SetOnEmpty(CacheKey(Byok("t")), Version(1), s.plane.now, s.plane.max);
  }

  /** A resolution that finds the pointer in the shared tier only stamps it afresh and uses its memo. */
  lemma {:induction false} ResolvePromotes(s: System, w: nat, at: real)
    requires var key := CacheKey(Byok("t"));
             s.keyed && s.plane.max > 0 && w < |s.memos| && w < |s.plane.l1s|
             && s.plane.l1s[w] == [Entry(key, Version(1), at)] && s.plane.now - at > CONTROL_PLANE
             && key in s.plane.l2 && s.plane.l2[key].value == Version(1) && s.plane.now <= s.plane.l2[key].expires
             && ("t", 1) in s.memos[w]
    ensures var key := CacheKey(Byok("t"));
            Do(s, Resolve(w, "t", true, true))
            == s.(plane := s.plane.(l1s := s.plane.l1s[w := [Entry(key, Version(1), s.plane.now)]]))
  {
    ExpiredGet(s.plane.l1s[w], CacheKey(Byok("t")), at, s.plane.now);
    SetOnEmpty(CacheKey(Byok("t")), Version(1), s.plane.now, s.plane.max);
    assert s.memos[w := s.memos[w]] == s.memos;
  }

  lemma {:induction false} RoundKeepsStuck(s: System, first: Config, second: Config) returns (s': System)
    requires Stuck(s, first, second)
    ensures Stuck(s', first, second) && s'.plane.now == s.plane.now + 61.0
    ensures forall rest :: AllowedRun(s', rest) && LeavesAlone(s', rest, "t") ==>
              AllowedRun(s, ROUND + rest) && LeavesAlone(s, ROUND + rest, "t")
              && Final(s, ROUND + rest) == Final(s', rest)
  {
    var a, b, c := ROUND[0], ROUND[1], ROUND[2];
    var s1 := Do(s, a);
    ResolveLoads(s1, 0, s.plane.now);
    var s2 := Do(s1, b);
    ResolvePromotes(s2, 1, s.plane.now);
    s' := Do(s2, c);
    forall rest | AllowedRun(s', rest) && LeavesAlone(s', rest, "t")
      ensures AllowedRun(s, ROUND + rest) && LeavesAlone(s, ROUND + rest, "t")
              && Final(s, ROUND + rest) == Final(s', rest)
    {
      assert ROUND + rest == [a] + ([b] + ([c] + rest));
      FinalStep(s, a, [b] + ([c] + rest));
      FinalStep(s1, b, [c] + rest);
      FinalStep(s2, c, rest);
    }
  }

  lemma {:induction false} RoundsKeepStuck(s: System, n: nat, first: Config, second: Config)
    requires Stuck(s, first, second)
    ensures AllowedRun(s, Rounds(n)) && LeavesAlone(s, Rounds(n), "t") && Stuck(Final(s, Rounds(n)), first, second)
    ensures Final(s, Rounds(n)).plane.now == s.plane.now + 61.0 * n as real
    decreases n
  {
    if n > 0 {
      var s' := RoundKeepsStuck(s, first, second);
      RoundsKeepStuck(s', n - 1, first, second);
    }
  }

  lemma {:induction false} RecreationSticks(first: Config, second: Config)
    ensures AllowedRun(TwoWorkers(), Recreation(first, second))
    ensures var s0, run := TwoWorkers(), Recreation(first, second);
            Fresh(s0) && Stuck(Final(s0, run), first, second) && Final(s0, run).plane.now == 0.0
  {
    var s0, run := TwoWorkers(), Recreation(first, second);
    var s1 := Do(s0, run[0]);
    ResolveLoads(s1, 1, -61.0);
    RecreationRun(s0, run);
  }

  lemma {:induction false} RecreationRun(s: System, run: seq<Step>)
    requires |run| == 4 && Allowed(s, run[0]) && Allowed(Do(s, run[0]), run[1])
    requires var s2 := Do(Do(s, run[0]), run[1]); Allowed(s2, run[2]) && Allowed(Do(s2, run[2]), run[3])
    ensures AllowedRun(s, run) && Final(s, run) == Do(Do(Do(Do(s, run[0]), run[1]), run[2]), run[3])
  {
    var s1 := Do(s, run[0]);
    var s2 := Do(s1, run[1]);
    var s3 := Do(s2, run[2]);
    assert run == [run[0]] + run[1..] && run[1..] == [run[1]] + run[2..] && run[2..] == [run[2]] + run[3..]
        && run[3..] == [run[3]] + [];
    FinalStep(s3, run[3], []);
    FinalStep(s2, run[2], run[3..]);
    FinalStep(s1, run[1], run[2..]);
    FinalStep(s, run[0], run[1..]);
  }

  /** A configuration that is deleted and saved again starts at version 1 again. Another worker can then go
      on resolving the old configuration, with its old key, for any number of minutes. */
  lemma {:induction false} RecreatedIsStaleForEver(n: nat, first: Config, second: Config)
    ensures AllowedRun(TwoWorkers(), Recreation(first, second))
    ensures var s := Final(TwoWorkers(), Recreation(first, second));
            AllowedRun(s, Rounds(n)) && LeavesAlone(s, Rounds(n), "t")
            && var s' := Final(s, Rounds(n));
            s'.plane.now == s.plane.now + 61.0 * n as real && |s'.memos| == |s'.plane.l1s| == 2
            && Result(s', 1, "t", true) == Use(Own("t", first, 1))
            && Load(s'.rows, s'.keyed, "t") == Use(Own("t", second, 1))
  {
    RecreationSticks(first, second);
    RoundsKeepStuck(Final(TwoWorkers(), Recreation(first, second)), n, first, second);
  }

  // ---------- the exact condition ----------

  /** What the worker remembers under the effective version, if anything, is the effective configuration. */
  predicate RemembersRight(s: System, w: nat, tenant: string)
    requires w < |s.memos|
  {
    var r := Effective(s.rows, tenant);
    (tenant, VersionOf(r)) in s.memos[w] ==> s.memos[w][(tenant, VersionOf(r))] == r
  }

  ghost predicate Right(s: System, w: nat, tenant: string, up: bool)
  {
    w < |s.memos| && w < |s.plane.l1s| && Result(s, w, tenant, up) == Load(s.rows, s.keyed, tenant)
  }

  /** A continuation that leaves the tenant's row alone and takes longer than the bound. */
  ghost predicate Later(s: System, run: seq<Step>, tenant: string, bound: real)
  {
    AllowedRun(s, run) && LeavesAlone(s, run, tenant) && Final(s, run).plane.now > s.plane.now + bound
  }

  /** However things go on without a write, the worker resolves rightly after the bound. */
  ghost predicate RightAfter(s: System, w: nat, tenant: string, bound: real)
  {
    forall run, up :: Later(s, run, tenant, bound) ==> Right(Final(s, run), w, tenant, up)
  }

  lemma {:induction false} DoKeepsMemory(s: System, step: Step, w: nat, tenant: string)
    requires Sound(s) && Allowed(s, step) && Changes(s, step) != Some(tenant)
    requires w < |s.memos| && RemembersRight(s, w, tenant)
    ensures RemembersRight(Do(s, step), w, tenant)
  {
  }

  lemma {:induction false} RunKeepsMemory(s: System, run: seq<Step>, w: nat, tenant: string)
    requires Sound(s) && AllowedRun(s, run) && LeavesAlone(s, run, tenant)
    requires w < |s.memos| && RemembersRight(s, w, tenant)
    ensures var s' := Final(s, run);
            Sound(s') && |s'.memos| == |s.memos| && RemembersRight(s', w, tenant)
    decreases run
  {
    if run != [] {
      DoKeepsMemory(s, run[0], w, tenant);
      DoKeepsSound(s, run[0]);
      RunKeepsMemory(Do(s, run[0]), run[1..], w, tenant);
    }
  }

  lemma {:induction false} RightMemoryResolves(s: System, run: seq<Step>, w: nat, tenant: string, up: bool, limit: real)
    requires Sound(s) && AllowedRun(s, run) && LeavesAlone(s, run, tenant) && tenant != ""
    requires w < |s.memos| && RemembersRight(s, w, tenant)
    requires Pointed(s, tenant, VersionOf(Effective(s.rows, tenant)), limit)
    requires Final(s, run).plane.now > limit + CONTROL_PLANE
    ensures Right(Final(s, run), w, tenant, up)
  {
    var s', version := Final(s, run), VersionOf(Effective(s.rows, tenant));
    RunKeepsMemory(s, run, w, tenant);
    RunKeepsPointed(s, run, tenant, version, limit);
    var t, key := TiersOf(s'.plane, w), CacheKey(Byok(tenant));
    assert Current(t, key, Version(version), limit);
    CurrentAnswers(t, key, Version(version), limit, CONTROL_PLANE, s'.plane.now, up);
  }

  /** Time passes, and then another worker resolves: it finds no live pointer, loads the row and caches
      the present version for all workers. */
  function Renewal(v: nat, tenant: string, dt: real): seq<Step>
  {
    [Plane(Tick(dt)), Resolve(v, tenant, true, true)]
  }

  /** Nothing that was cached is live any more. */
  lemma {:induction false} NothingLive(s: System, w: nat, key: string, dt: real, up: bool)
    requires Sane(s.plane) && w < |s.plane.l1s| && dt > CONTROL_PLANE
    ensures LookupResult(TiersOf(s.plane, w), key, CONTROL_PLANE, s.plane.now + dt, up) == None
    ensures GetResult(s.plane.l1s[w], key, CONTROL_PLANE, s.plane.now + dt) == None
  {
    assert NoFutureStamps(s.plane.l1s[w], s.plane.now);
  }

  lemma {:induction false} RenewalPoints(s: System, v: nat, w: nat, tenant: string, dt: real) returns (run: seq<Step>)
    requires Sound(s) && s.keyed && v < |s.memos| && w < |s.memos| && v != w && tenant != "" && dt > CONTROL_PLANE
    ensures AllowedRun(s, run) && LeavesAlone(s, run, tenant)
            && var s' := Final(s, run);
            s'.plane.now == s.plane.now + dt && s'.rows == s.rows && s'.keyed
            && |s'.memos| == |s.memos| == |s'.plane.l1s|
            && s'.memos[w] == s.memos[w]
            && LookupResult(TiersOf(s'.plane, w), CacheKey(Byok(tenant)), CONTROL_PLANE, s'.plane.now, true)
               == Some(Version(VersionOf(Effective(s.rows, tenant))))
  {
    var a, b, key := Plane(Tick(dt)), Resolve(v, tenant, true, true), CacheKey(Byok(tenant));
    var s1 := Do(s, a);
    NothingLive(s, v, key, dt, true);
    NothingLive(s, w, key, dt, true);
    var s2 := Do(s1, b);
    run := Renewal(v, tenant, dt);
    assert run == [a] + ([b] + []);
    FinalStep(s, a, [b] + []);
    FinalStep(s1, b, []);
    assert s2.plane.l1s[w] == s.plane.l1s[w];
  }

  /** A worker that remembers another configuration under the effective version is wrong again, whatever the
      bound, as soon as another worker has renewed the pointer. */
  lemma {:induction false} WrongMemoryLasts(s: System, v: nat, w: nat, tenant: string, bound: real)
    requires Sound(s) && v < |s.memos| && w < |s.memos| && v != w && tenant != "" && bound >= CONTROL_PLANE
    requires !RemembersRight(s, w, tenant)
    ensures !RightAfter(s, w, tenant, bound)
  {
    assert s.memos[w] != map[];
    var run := RenewalPoints(s, v, w, tenant, bound + 1.0);
    OnceWrong(s, run, w, tenant, bound);
  }

  lemma {:induction false} OnceWrong(s: System, run: seq<Step>, w: nat, tenant: string, bound: real)
    requires Later(s, run, tenant, bound) && tenant != "" && w < |s.memos| && !RemembersRight(s, w, tenant)
    requires var s' := Final(s, run);
             w < |s'.memos| && w < |s'.plane.l1s| && s'.memos[w] == s.memos[w] && s'.rows == s.rows
             && LookupResult(TiersOf(s'.plane, w), CacheKey(Byok(tenant)), CONTROL_PLANE, s'.plane.now, true)
                == Some(Version(VersionOf(Effective(s.rows, tenant))))
    ensures !RightAfter(s, w, tenant, bound)
  {
    WrongHit(Final(s, run), w, tenant);
  }

  lemma {:induction false} WrongHit(s: System, w: nat, tenant: string)
    requires w < |s.memos| && w < |s.plane.l1s| && tenant != "" && !RemembersRight(s, w, tenant)
    requires LookupResult(TiersOf(s.plane, w), CacheKey(Byok(tenant)), CONTROL_PLANE, s.plane.now, true)
          == Some(Version(VersionOf(Effective(s.rows, tenant))))
    ensures !Right(s, w, tenant, true)
  {
  }

  lemma {:induction false} OnlyOneWorker(s: System, run: seq<Step>, tenant: string)
    requires Sound(s) && |s.memos| == 1 && AllowedRun(s, run)
    ensures WritesOnly(s, run, tenant, 0)
    decreases run
  {
    if run != [] {
      DoKeepsSound(s, run[0]);
      OnlyOneWorker(Do(s, run[0]), run[1..], tenant);
    }
  }

  /** Exactly when a worker gets over a write: in every state right after a write of the tenant's row, and for
      every bound of at least two pointer lifetimes, the worker resolves rightly after the bound, however
      things go on until the next write, if and only if it remembers nothing else under the version that is
      now effective. Without recreation it never does (StaleForTwoLifetimes). */
  lemma {:induction false} RightAfterExactly(s0: System, before: seq<Step>, write: Step, tenant: string, w: nat,
                                             bound: real)
    requires Fresh(s0) && tenant != "" && w < |s0.memos| && bound >= 2.0 * CONTROL_PLANE && AllowedRun(s0, before)
    requires Allowed(Final(s0, before), write) && Changes(Final(s0, before), write) == Some(tenant)
    ensures var s := Do(Final(s0, before), write);
            w < |s.memos| && (RightAfter(s, w, tenant, bound) <==> RemembersRight(s, w, tenant))
  {
    var s1 := Final(s0, before);
    RunKeepsSound(s0, before);
    DoKeepsSound(s1, write);
    ChangePoints(s1, write, tenant);
    var s := Do(s1, write);
    if RemembersRight(s, w, tenant) {
      forall run, up | Later(s, run, tenant, bound) ensures Right(Final(s, run), w, tenant, up) {
        RightMemoryResolves(s, run, w, tenant, up, s1.plane.now + CONTROL_PLANE);
      }
    } else {
      AnotherWorker(s0, before, write, tenant, w);
      WrongMemoryLasts(s, if w == 0 then 1 else 0, w, tenant, bound);
    }
  }

  lemma {:induction false} RunKeepsSound(s: System, run: seq<Step>)
    requires Sound(s) && AllowedRun(s, run)
    ensures Sound(Final(s, run)) && |Final(s, run).memos| == |s.memos|
    decreases run
  {
    if run != [] {
      DoKeepsSound(s, run[0]);
      RunKeepsSound(Do(s, run[0]), run[1..]);
    }
  }

  /** Only another worker can have made a worker's memory wrong. */
  lemma {:induction false} AnotherWorker(s0: System, before: seq<Step>, write: Step, tenant: string, w: nat)
    requires Fresh(s0) && w < |s0.memos| && AllowedRun(s0, before) && Allowed(Final(s0, before), write)
    requires w < |Do(Final(s0, before), write).memos| && !RemembersRight(Do(Final(s0, before), write), w, tenant)
    ensures |s0.memos| > 1
  {
    if |s0.memos| == 1 {
      OnlyOneWorker(s0, before, tenant);
      RunKeepsExact(s0, before, 0, tenant);
      RunKeepsSound(s0, before);
      DoKeepsExact(Final(s0, before), write, 0, tenant);
    }
  }
}
