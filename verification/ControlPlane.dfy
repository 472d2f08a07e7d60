/** Tenant suspension, platform-admin grants and BYOK pointers: rows of one database, cached by every
    worker for 60 seconds. The operations of one worker, and all runs of any number of workers. */
module ControlPlane {
  import opened Wrappers
  import opened LruCache
  import opened TwoTier

  const CONTROL_PLANE := 60.0

  // ---------- what is cached ----------

  datatype Subject = Tenant(id: string) | Admin(id: string) | Byok(id: string)

  datatype Fact = Status(name: string) | Grant(active: bool) | Version(number: nat)

  function CacheKey(subject: Subject): string
  {
    match subject
    case Tenant(id) => "genbi:" + id + ":tenant_status:v1"
    case Admin(id) => "genbi:" + id + ":platform_admin:v1"
    case Byok(id) => "genbi:" + id + ":byok_version:v1"
  }

  /** Different subjects never share a cache key, whatever characters their ids hold. */
  lemma {:induction false} CacheKeyInjective(a: Subject, b: Subject)
    ensures CacheKey(a) == CacheKey(b) ==> a == b
  {
    if CacheKey(a) == CacheKey(b) {
      KeyEnding(a);
      KeyEnding(b);
      KeyId(a);
      KeyId(b);
    }
  }

  function EntityLength(subject: Subject): nat
  {
    match subject
    case Tenant(_) => 17
    case Admin(_) => 18
    case Byok(_) => 16
  }

  lemma {:induction false} KeyEnding(a: Subject)
    ensures var key := CacheKey(a);
            |key| >= 5 && key[|key| - 5] == if a.Tenant? then 'u' else if a.Admin? then 'i' else 'o'
  {
  }

  lemma {:induction false} KeyId(a: Subject)
    ensures var key := CacheKey(a);
            |key| == 6 + |a.id| + EntityLength(a) && key[6..|key| - EntityLength(a)] == a.id
  {
  }

  type Database = map<Subject, Fact>

  /** What the database lookup behind a check answers: a tenant without a row has no status, a user
      without an active grant is no admin, a tenant without an active configuration has version 0. */
  function Truth(db: Database, subject: Subject): Option<Fact>
  {
    if subject in db then Some(db[subject])
    else match subject
      case Tenant(_) => None
      case Admin(_) => Some(Grant(false))
      case Byok(_) => Some(Version(0))
  }

  // ---------- one worker ----------

  class Tables {
    var rows: Database

    constructor ()
      ensures rows == map[]
    {
      rows := map[];
    }
  }

  class Worker {
    const cache: CacheService<Fact>
    const db: Tables

    ghost predicate Valid()
      reads cache, cache.l1
    {
      cache.Valid()
    }

    constructor (maxSize: nat, shared: Redis<Fact>, db: Tables)
      ensures Valid() && fresh(cache) && fresh(cache.l1) && cache.l2 == shared && this.db == db
      ensures cache.l1.maxSize == maxSize && cache.State() == Tiers([], shared.data)
    {
      this.cache := new CacheService<Fact>(maxSize, shared);
      this.db := db;
    }

    /** Whether the suspension check turns the tenant's requests away. */
    method TenantIsSuspended(tenantId: string, now: real, getUp: bool, setUp: bool) returns (suspended: bool)
      requires Valid()
      modifies cache.l1, cache.l2
      ensures Valid()
      ensures var key, truth := CacheKey(Tenant(tenantId)), Truth(db.rows, Tenant(tenantId));
              suspended == (CheckResult(old(cache.State()), key, truth, CONTROL_PLANE, now, getUp)
                            == Some(Status("suspended")))
              && cache.State() == AfterCheck(old(cache.State()), key, truth, CONTROL_PLANE, now, getUp, setUp,
                                             cache.l1.maxSize)
    {
      var current := cache.Check(CacheKey(Tenant(tenantId)), Truth(db.rows, Tenant(tenantId)), CONTROL_PLANE, now,
                                 getUp, setUp);
      suspended := current == Some(Status("suspended"));
    }

    /** Whether the grant re-check lets an admin token through. */
    method PlatformAdminActive(userId: string, now: real, getUp: bool, setUp: bool) returns (active: bool)
      requires Valid()
      modifies cache.l1, cache.l2
      ensures Valid()
      ensures var key, truth := CacheKey(Admin(userId)), Truth(db.rows, Admin(userId));
              active == (CheckResult(old(cache.State()), key, truth, CONTROL_PLANE, now, getUp) != Some(Grant(false)))
              && cache.State() == AfterCheck(old(cache.State()), key, truth, CONTROL_PLANE, now, getUp, setUp,
                                             cache.l1.maxSize)
    {
      var current := cache.Check(CacheKey(Admin(userId)), Truth(db.rows, Admin(userId)), CONTROL_PLANE, now,
                                 getUp, setUp);
      active := current != Some(Grant(false));
    }

    /** Set a tenant's status, in the database and then in the cache; false when there is no such tenant. */
    method UpdateTenantStatus(tenantId: string, status: string, now: real, up: bool) returns (found: bool)
      requires Valid()
      modifies cache.l1, cache.l2, db
      ensures Valid() && found == (Tenant(tenantId) in old(db.rows))
      ensures Written(old(db.rows), old(cache.State()), if found then Some(Status(status)) else None, Tenant(tenantId),
                      now, up, cache.l1.maxSize, db.rows, cache.State())
    {
      if Tenant(tenantId) !in db.rows {
        return false;
      }
      db.rows := db.rows[Tenant(tenantId) := Status(status)];
      cache.Put(CacheKey(Tenant(tenantId)), Status(status), CONTROL_PLANE, now, up);
      found := true;
    }

    method GrantSuperadmin(userId: string, now: real, up: bool)
      requires Valid()
      modifies cache.l1, cache.l2, db
      ensures Valid()
      ensures Written(old(db.rows), old(cache.State()), Some(Grant(true)), Admin(userId), now, up, cache.l1.maxSize,
                      db.rows, cache.State())
    {
      db.rows := db.rows[Admin(userId) := Grant(true)];
      cache.Put(CacheKey(Admin(userId)), Grant(true), CONTROL_PLANE, now, up);
    }

    /** Revoke an active grant; false, and no change at all, when there is none. */
    method RevokeSuperadmin(userId: string, now: real, up: bool) returns (revoked: bool)
      requires Valid()
      modifies cache.l1, cache.l2, db
      ensures Valid() && revoked == (Truth(old(db.rows), Admin(userId)) == Some(Grant(true)))
      ensures Written(old(db.rows), old(cache.State()), if revoked then Some(Grant(false)) else None, Admin(userId),
                      now, up, cache.l1.maxSize, db.rows, cache.State())
    {
      revoked := Admin(userId) in db.rows && db.rows[Admin(userId)] == Grant(true);
      if revoked {
        db.rows := db.rows[Admin(userId) := Grant(false)];
        cache.Put(CacheKey(Admin(userId)), Grant(false), CONTROL_PLANE, now, up);
      }
    }
  }

  /** The rows and tiers after writing `fact`, or nothing, about a subject. */
  ghost predicate Written(db: Database, t: Tiers<Fact>, fact: Option<Fact>, subject: Subject, now: real, up: bool,
                          max: nat, db': Database, t': Tiers<Fact>)
  {
    match fact
    case None => db' == db && t' == t
    case Some(f) =>
      db' == db[subject := f] && t' == AfterPut(t, CacheKey(subject), f, CONTROL_PLANE, now, up, max)
  }

  // ---------- all workers ----------

  datatype Cluster = Cluster(now: real, db: Database, l1s: seq<Store<Fact>>, l2: Shared<Fact>, max: nat)

  /** What can happen to the control plane. `up` says whether the worker reaches the shared tier;
      `Drop` and `Lose` stand for entries removed on behalf of other keys. */
  datatype Event =
    | Tick(dt: real)
    | Check(w: nat, subject: Subject, getUp: bool, setUp: bool)
    | Provision(w: nat, tenant: string, up: bool)
    | UpdateStatus(w: nat, tenant: string, status: string, up: bool)
    | GrantAdmin(w: nat, user: string, up: bool)
    | RevokeAdmin(w: nat, user: string, up: bool)
    | WriteVersion(tenant: string, version: nat)
    | Look(w: nat, subject: Subject, up: bool)
    | Refill(w: nat, subject: Subject, up: bool)
    | Drop(w: nat, key: string)
    | Lose(key: string)

  predicate Legal(s: Cluster, e: Event)
  {
    match e
    case Tick(dt) => dt >= 0.0
    case WriteVersion(_, _) => true
    case Lose(_) => true
    case _ => e.w < |s.l1s|
  }

  /** The fact that an event writes to the database, if any. */
  function Writes(db: Database, e: Event): Option<(Subject, Fact)>
  {
    match e
    case Provision(_, tenant, _) => if Tenant(tenant) in db then None else Some((Tenant(tenant), Status("active")))
    case UpdateStatus(_, tenant, status, _) =>
      if Tenant(tenant) in db then Some((Tenant(tenant), Status(status))) else None
    case GrantAdmin(_, user, _) => Some((Admin(user), Grant(true)))
    case RevokeAdmin(_, user, _) =>
      if Truth(db, Admin(user)) == Some(Grant(true)) then Some((Admin(user), Grant(false))) else None
    case WriteVersion(tenant, version) => Some((Byok(tenant), Version(version)))
    case _ => None
  }

  function TiersOf(s: Cluster, w: nat): Tiers<Fact>
    requires w < |s.l1s|
  {
    Tiers(s.l1s[w], s.l2)
  }

  function WithTiers(s: Cluster, w: nat, t: Tiers<Fact>): Cluster
    requires w < |s.l1s|
  {
    s.(l1s := s.l1s[w := t.l1], l2 := t.l2)
  }

  /** A write goes to the database and, except for pointers, then to the writer's two tiers. */
  function AfterWrite(s: Cluster, e: Event, subject: Subject, fact: Fact): Cluster
    requires Legal(s, e) && Writes(s.db, e) == Some((subject, fact))
  {
    var s' := s.(db := s.db[subject := fact]);
    if e.WriteVersion? then s'
    else WithTiers(s', e.w, AfterPut(TiersOf(s, e.w), CacheKey(subject), fact, CONTROL_PLANE, s.now, e.up, s.max))
  }

  function Act(s: Cluster, e: Event): Cluster
    requires Legal(s, e)
  {
    var write := Writes(s.db, e);
    if write.Some? then AfterWrite(s, e, write.value.0, write.value.1) else
    match e
    case Tick(dt) => s.(now := s.now + dt)
    case Check(w, subject, getUp, setUp) =>
      WithTiers(s, w, AfterCheck(TiersOf(s, w), CacheKey(subject), Truth(s.db, subject), CONTROL_PLANE, s.now, getUp,
                                 setUp, s.max))
    case Look(w, subject, up) =>
      WithTiers(s, w, AfterLookup(TiersOf(s, w), CacheKey(subject), CONTROL_PLANE, s.now, up, s.max))
    case Refill(w, subject, up) =>
      var truth := Truth(s.db, subject);
      if truth.None? then s
      else WithTiers(s, w, AfterPut(TiersOf(s, w), CacheKey(subject), truth.value, CONTROL_PLANE, s.now, up, s.max))
    case Drop(w, key) => s.(l1s := s.l1s[w := Without(s.l1s[w], key)])
    case Lose(key) => s.(l2 := s.l2 - {key})
    case _ => s
  }

  /** What a check of the subject by worker `w` answers now. */
  function Answer(s: Cluster, w: nat, subject: Subject, up: bool): Option<Fact>
    requires w < |s.l1s|
  {
    CheckResult(TiersOf(s, w), CacheKey(subject), Truth(s.db, subject), CONTROL_PLANE, s.now, up)
  }

  ghost predicate LegalRun(s: Cluster, run: seq<Event>)
    decreases run
  {
    run == [] || (Legal(s, run[0]) && LegalRun(Act(s, run[0]), run[1..]))
  }

  function After(s: Cluster, run: seq<Event>): Cluster
    requires LegalRun(s, run)
    decreases run
  {
    if run == [] then s else After(Act(s, run[0]), run[1..])
  }

  /** No event of the run writes the subject. */
  ghost predicate Quiet(s: Cluster, run: seq<Event>, subject: Subject)
    requires LegalRun(s, run)
    decreases run
  {
    run == []
    || ((Writes(s.db, run[0]).Some? ==> Writes(s.db, run[0]).value.0 != subject)
        && Quiet(Act(s, run[0]), run[1..], subject))
  }

  /** Workers that have just started, over any database. */
  predicate Started(s: Cluster)
  {
    s.l2 == map[] && forall w :: 0 <= w < |s.l1s| ==> s.l1s[w] == []
  }

  // ---------- what every run keeps ----------

  ghost predicate NoFutureStamps(l1: Store<Fact>, now: real)
  {
    forall e :: e in l1 ==> e.at <= now
  }

  ghost predicate NoLateCells(l2: Shared<Fact>, now: real)
  {
    forall key :: key in l2 ==> l2[key].expires <= now + CONTROL_PLANE
  }

  ghost predicate Sane(s: Cluster)
  {
    NoLateCells(s.l2, s.now) && forall w :: 0 <= w < |s.l1s| ==> NoFutureStamps(s.l1s[w], s.now)
  }

  lemma {:induction false} TiersKeepSane(s: Cluster, w: nat, key: string, truth: Option<Fact>, getUp: bool, setUp: bool)
    requires Sane(s) && w < |s.l1s|
    ensures Sane(WithTiers(s, w, AfterLookup(TiersOf(s, w), key, CONTROL_PLANE, s.now, getUp, s.max)))
    ensures truth.Some? ==>
              Sane(WithTiers(s, w, AfterPut(TiersOf(s, w), key, truth.value, CONTROL_PLANE, s.now, setUp, s.max)))
    ensures Sane(WithTiers(s, w, AfterCheck(TiersOf(s, w), key, truth, CONTROL_PLANE, s.now, getUp, setUp, s.max)))
  {
    var t := TiersOf(s, w);
    var looked := AfterLookup(t, key, CONTROL_PLANE, s.now, getUp, s.max);
    var shared := SharedGet(t.l2, key, s.now, getUp);
    if shared.Some? {
      SetIsPart(AfterGet(t.l1, key, CONTROL_PLANE, s.now), key, shared.value, s.now, s.max);
    }
    assert NoFutureStamps(looked.l1, s.now);
    if truth.Some? {
      SetIsPart(t.l1, key, truth.value, s.now, s.max);
      SetIsPart(looked.l1, key, truth.value, s.now, s.max);
      assert NoFutureStamps(AfterPut(t, key, truth.value, CONTROL_PLANE, s.now, setUp, s.max).l1, s.now);
      assert NoFutureStamps(AfterPut(looked, key, truth.value, CONTROL_PLANE, s.now, setUp, s.max).l1, s.now);
    }
  }

  lemma {:induction false} ActKeepsSane(s: Cluster, e: Event)
    requires Sane(s) && Legal(s, e)
    ensures Sane(Act(s, e)) && |Act(s, e).l1s| == |s.l1s| && Act(s, e).now >= s.now
  {
    var write := Writes(s.db, e);
    if write.Some? {
      if !e.WriteVersion? {
        TiersKeepSane(s.(db := s.db[write.value.0 := write.value.1]), e.w, CacheKey(write.value.0),
                      Some(write.value.1), e.up, e.up);
      }
    } else {
      match e
      case Check(w, subject, getUp, setUp) =>
        TiersKeepSane(s, w, CacheKey(subject), Truth(s.db, subject), getUp, setUp);
      case Look(w, subject, up) => TiersKeepSane(s, w, CacheKey(subject), None, up, up);
      case Refill(w, subject, up) => TiersKeepSane(s, w, CacheKey(subject), Truth(s.db, subject), up, up);
      case Drop(w, key) => assert NoFutureStamps(Without(s.l1s[w], key), s.now);
      case _ =>
    }
  }

  lemma {:induction false} RunKeepsSane(s: Cluster, run: seq<Event>)
    requires Sane(s) && LegalRun(s, run)
    ensures Sane(After(s, run)) && |After(s, run).l1s| == |s.l1s| && After(s, run).now >= s.now
    decreases run
  {
    if run != [] {
      ActKeepsSane(s, run[0]);
      RunKeepsSane(Act(s, run[0]), run[1..]);
    }
  }

  // ---------- a written fact binds in bounded time ----------

  /** The database says `fact`, and nothing else that is cached about the subject dates from after `limit`. */
  ghost predicate Settled(s: Cluster, subject: Subject, fact: Fact, limit: real)
  {
    Truth(s.db, subject) == Some(fact)
    && L2Current(s.l2, CacheKey(subject), fact, limit)
    && forall w :: 0 <= w < |s.l1s| ==> L1Current(s.l1s[w], CacheKey(subject), fact, limit)
  }

  lemma {:induction false} TiersKeepSettled(s: Cluster, subject: Subject, fact: Fact, limit: real, w: nat,
                                            other: Subject, truth: Option<Fact>, getUp: bool, setUp: bool)
    requires Settled(s, subject, fact, limit) && w < |s.l1s|
    requires other == subject ==> truth == Some(fact)
    ensures var key := CacheKey(other);
            Settled(WithTiers(s, w, AfterLookup(TiersOf(s, w), key, CONTROL_PLANE, s.now, getUp, s.max)), subject,
                    fact, limit)
            && (truth.Some? ==>
                  Settled(WithTiers(s, w,
                                    AfterPut(TiersOf(s, w), key, truth.value, CONTROL_PLANE, s.now, setUp, s.max)),
                          subject, fact, limit))
            && Settled(WithTiers(s, w,
                                 AfterCheck(TiersOf(s, w), key, truth, CONTROL_PLANE, s.now, getUp, setUp, s.max)),
                       subject, fact, limit)
  {
    CacheKeyInjective(other, subject);
    var t, key, k := TiersOf(s, w), CacheKey(subject), CacheKey(other);
    assert Current(t, key, fact, limit);
    LookupKeepsCurrent(t, key, fact, limit, k, CONTROL_PLANE, s.now, getUp, s.max);
    if truth.Some? {
      PutKeepsCurrent(t, key, fact, limit, k, truth.value, CONTROL_PLANE, s.now, setUp, s.max);
      PutKeepsCurrent(AfterLookup(t, k, CONTROL_PLANE, s.now, getUp, s.max), key, fact, limit, k, truth.value,
                      CONTROL_PLANE, s.now, setUp, s.max);
    }
  }

  lemma {:induction false} ActKeepsSettled(s: Cluster, e: Event, subject: Subject, fact: Fact, limit: real)
    requires Settled(s, subject, fact, limit) && Legal(s, e)
    requires Writes(s.db, e).Some? ==> Writes(s.db, e).value.0 != subject
    ensures Settled(Act(s, e), subject, fact, limit)
  {
    var write := Writes(s.db, e);
    if write.Some? {
      if !e.WriteVersion? {
        TiersKeepSettled(s.(db := s.db[write.value.0 := write.value.1]), subject, fact, limit, e.w, write.value.0,
                         Some(write.value.1), e.up, e.up);
      }
    } else {
      match e
      case Check(w, other, getUp, setUp) =>
        TiersKeepSettled(s, subject, fact, limit, w, other, Truth(s.db, other), getUp, setUp);
      case Look(w, other, up) => TiersKeepSettled(s, subject, fact, limit, w, other, Truth(s.db, other), up, up);
      case Refill(w, other, up) => TiersKeepSettled(s, subject, fact, limit, w, other, Truth(s.db, other), up, up);
      case Drop(w, key) => assert L1Current(Without(s.l1s[w], key), CacheKey(subject), fact, limit);
      case _ =>
    }
  }

  lemma {:induction false} RunKeepsSettled(s: Cluster, run: seq<Event>, subject: Subject, fact: Fact, limit: real)
    requires Settled(s, subject, fact, limit) && LegalRun(s, run) && Quiet(s, run, subject)
    ensures Settled(After(s, run), subject, fact, limit)
    decreases run
  {
    if run != [] {
      ActKeepsSettled(s, run[0], subject, fact, limit);
      RunKeepsSettled(Act(s, run[0]), run[1..], subject, fact, limit);
    }
  }

  /** Whether a write reaches the shared tier. */
  predicate Reaches(e: Event)
  {
    match e
    case Provision(_, _, up) => up
    case UpdateStatus(_, _, _, up) => up
    case GrantAdmin(_, _, up) => up
    case RevokeAdmin(_, _, up) => up
    case _ => false
  }

  /** The time after which every check sees a write: one lifetime of a cached value when the writer
      reaches the shared tier, two when it does not. */
  function Bound(reached: bool): real
  {
    if reached then CONTROL_PLANE else 2.0 * CONTROL_PLANE
  }

  lemma {:induction false} WriteSettles(s: Cluster, e: Event)
    requires Sane(s) && Legal(s, e) && Writes(s.db, e).Some?
    ensures var (subject, fact) := Writes(s.db, e).value;
            Settled(Act(s, e), subject, fact, s.now + Bound(Reaches(e)) - CONTROL_PLANE)
  {
    var (subject, fact) := Writes(s.db, e).value;
    var limit := s.now + Bound(Reaches(e)) - CONTROL_PLANE;
    forall w | 0 <= w < |s.l1s| ensures L1Current(s.l1s[w], CacheKey(subject), fact, limit) {
      assert NoFutureStamps(s.l1s[w], s.now);
    }
    if !e.WriteVersion? {
      SetIsPart(s.l1s[e.w], CacheKey(subject), fact, s.now, s.max);
    }
  }

  /** A run `before`, a write, a run `after` without another write of the subject, and then a check by
      worker `w`, more than `delay` after the write. */
  datatype History = History(s0: Cluster, before: seq<Event>, e: Event, after: seq<Event>, w: nat, up: bool)

  ghost predicate Feasible(h: History, delay: real)
  {
    Started(h.s0) && LegalRun(h.s0, h.before)
    && var s := After(h.s0, h.before);
    Legal(s, h.e) && Writes(s.db, h.e).Some?
    && LegalRun(Act(s, h.e), h.after) && Quiet(Act(s, h.e), h.after, Writes(s.db, h.e).value.0)
    && var s' := After(Act(s, h.e), h.after);
    h.w < |s'.l1s| && s'.now > s.now + delay
  }

  /** The check sees the written fact. */
  ghost predicate Seen(h: History)
    requires Feasible(h, 0.0)
  {
    var s := After(h.s0, h.before);
    var (subject, fact) := Writes(s.db, h.e).value;
    Answer(After(Act(s, h.e), h.after), h.w, subject, h.up) == Some(fact)
  }

  /** In any run of any number of workers: after a write, every check by any worker that comes more
      than the bound later sees the written fact, until the next write of that subject. */
  lemma {:induction false} WritesBind(h: History)
    requires Feasible(h, Bound(Reaches(h.e)))
    ensures Seen(h)
  {
    RunKeepsSane(h.s0, h.before);
    var s := After(h.s0, h.before);
    WriteSettles(s, h.e);
    var (subject, fact) := Writes(s.db, h.e).value;
    var limit := s.now + Bound(Reaches(h.e)) - CONTROL_PLANE;
    RunKeepsSettled(Act(s, h.e), h.after, subject, fact, limit);
    var s' := After(Act(s, h.e), h.after);
    assert Current(TiersOf(s', h.w), CacheKey(subject), fact, limit);
    CurrentAnswers(TiersOf(s', h.w), CacheKey(subject), fact, limit, CONTROL_PLANE, s'.now, h.up);
  }

  /** A suspended tenant is turned away after the bound, whoever checks, and one with any other status is not. */
  lemma {:induction false} SuspensionBinds(h: History)
    requires Feasible(h, Bound(Reaches(h.e))) && h.e.UpdateStatus?
    ensures var s' := After(Act(After(h.s0, h.before), h.e), h.after);
            Answer(s', h.w, Tenant(h.e.tenant), h.up) == Some(Status("suspended")) <==> h.e.status == "suspended"
  {
    WritesBind(h);
  }

  /** A revoked admin is turned away after the bound, and a granted one let through. */
  lemma {:induction false} RevocationBinds(h: History)
    requires Feasible(h, Bound(Reaches(h.e))) && (h.e.RevokeAdmin? || h.e.GrantAdmin?)
    ensures var s' := After(Act(After(h.s0, h.before), h.e), h.after);
            Answer(s', h.w, Admin(h.e.user), h.up) == Some(Grant(h.e.GrantAdmin?))
  {
    WritesBind(h);
  }

  /** A user without a grant. */
  predicate Ungranted(db: Database, user: string)
  {
    Admin(user) in db ==> db[Admin(user)] == Grant(false)
  }

  lemma {:induction false} NoGrantIsQuiet(s: Cluster, run: seq<Event>, user: string)
    requires LegalRun(s, run) && Ungranted(s.db, user)
    requires forall i :: 0 <= i < |run| && run[i].GrantAdmin? ==> run[i].user != user
    ensures Quiet(s, run, Admin(user))
    decreases run
  {
    if run != [] {
      NoGrantIsQuiet(Act(s, run[0]), run[1..], user);
    }
  }

  /** Whom nobody has granted anything is never let through, by any worker at any time. */
  lemma {:induction false} OnlyGrantedAreLetIn(s0: Cluster, run: seq<Event>, user: string, w: nat, up: bool)
    requires Started(s0) && LegalRun(s0, run) && Ungranted(s0.db, user) && w < |s0.l1s|
    requires forall i :: 0 <= i < |run| && run[i].GrantAdmin? ==> run[i].user != user
    ensures w < |After(s0, run).l1s| && Answer(After(s0, run), w, Admin(user), up) == Some(Grant(false))
  {
    var limit := s0.now - 2.0 * CONTROL_PLANE;
    NoGrantIsQuiet(s0, run, user);
    RunKeepsSane(s0, run);
    RunKeepsSettled(s0, run, Admin(user), Grant(false), limit);
    var s := After(s0, run);
    CurrentAnswers(TiersOf(s, w), CacheKey(Admin(user)), Grant(false), limit, CONTROL_PLANE, s.now, up);
  }

  /** An event does to the database and to its worker's tiers what the worker's method does; a refused one
      changes nothing. */
  lemma {:induction false} EventsAreMethods(s: Cluster, e: Event)
    requires Legal(s, e)
    ensures var s' := Act(s, e);
            match e
            case UpdateStatus(w, tenant, status, up) =>
              var row := if Tenant(tenant) in s.db then Some(Status(status)) else None;
              (row.None? ==> s' == s)
              && Written(s.db, TiersOf(s, w), row, Tenant(tenant), s.now, up, s.max, s'.db, TiersOf(s', w))
            case GrantAdmin(w, user, up) =>
              Written(s.db, TiersOf(s, w), Some(Grant(true)), Admin(user), s.now, up, s.max, s'.db, TiersOf(s', w))
            case RevokeAdmin(w, user, up) =>
              var row := if Truth(s.db, Admin(user)) == Some(Grant(true)) then Some(Grant(false)) else None;
              (row.None? ==> s' == s)
              && Written(s.db, TiersOf(s, w), row, Admin(user), s.now, up, s.max, s'.db, TiersOf(s', w))
            case Check(w, subject, getUp, setUp) =>
              s'.db == s.db
              && TiersOf(s', w) == AfterCheck(TiersOf(s, w), CacheKey(subject), Truth(s.db, subject), CONTROL_PLANE,
                                              s.now, getUp, setUp, s.max)
            case _ => true
  {
  }

  /** Every write that does, or does not, reach the shared tier is seen by every check after `delay`. */
  ghost predicate BindsWithin(delay: real, reached: bool)
    requires delay >= 0.0
  {
    forall h :: Feasible(h, delay) && Reaches(h.e) == reached ==> Seen(h)
  }

  lemma {:induction false} RunStep(s: Cluster, e: Event, rest: seq<Event>)
    ensures LegalRun(s, [e] + rest) == (Legal(s, e) && LegalRun(Act(s, e), rest))
    ensures LegalRun(s, [e] + rest) ==> After(s, [e] + rest) == After(Act(s, e), rest)
    ensures LegalRun(s, [e] + rest) ==> forall subject ::
              Quiet(s, [e] + rest, subject)
              == ((Writes(s.db, e).Some? ==> Writes(s.db, e).value.0 != subject) && Quiet(Act(s, e), rest, subject))
  {
    assert ([e] + rest)[1..] == rest;
  }

  /** The bounds are exact: 60 seconds hold when the writer reaches the shared tier and no earlier
      moment would; when it does not, only 120 seconds hold, twice what the documentation promises. */
  lemma {:induction false} BoundIsExact(delay: real, reached: bool)
    requires delay >= 0.0
    ensures BindsWithin(delay, reached) <==> delay >= if reached then 60.0 else 120.0
  {
    if delay >= Bound(reached) {
      forall h | Feasible(h, delay) && Reaches(h.e) == reached ensures Seen(h) {
        WritesBind(h);
      }
    } else {
      var h := Outdated(reached);
      OutdatedUntilBound(reached);
      assert Feasible(h, delay) && Reaches(h.e) == reached && !Seen(h);
    }
  }

  /** Three workers. One has cached that the tenant is active; another suspends it. If the shared tier
      misses the write, a third worker promotes the old cell at the moment it expires. */
  function Outdated(reached: bool): History
  {
    var tenant := Tenant("t");
    History(Cluster(0.0, map[tenant := Status("active")], [[], [], []], map[], 1000), [Check(1, tenant, true, true)],
            UpdateStatus(0, "t", "suspended", reached),
            if reached then [Tick(60.0)] else [Tick(60.0), Check(2, tenant, true, true), Tick(60.0)],
            if reached then 1 else 2, true)
  }

  lemma {:induction false} OutdatedUntilBound(reached: bool)
    ensures var h := Outdated(reached);
            Reaches(h.e) == reached
            && (forall delay :: 0.0 <= delay < Bound(reached) ==> Feasible(h, delay))
            && Feasible(h, 0.0) && !Seen(h)
  {
    var h, tenant := Outdated(reached), Tenant("t");
    var key, active, suspended := CacheKey(tenant), Status("active"), Status("suspended");
    var s0 := h.s0;
    FirstCheck(s0, 1, tenant, active);
    var s1 := Act(s0, Check(1, tenant, true, true));
    RunStep(s0, h.before[0], []);
    assert h.before == [h.before[0]] + [];
    assert After(s0, h.before) == s1;
    var s2 := Act(s1, h.e);
    assert s2.l1s[1] == [Entry(key, active, 0.0)] && s2.l1s[2] == [];
    var s3 := Act(s2, Tick(60.0));
    RunStep(s2, Tick(60.0), h.after[1..]);
    assert h.after == [Tick(60.0)] + h.after[1..];
    if !reached {
      assert s3.l2 == map[key := Cell(active, 60.0)];
      Promotion(s3, 2, tenant, active);
      var s4 := Act(s3, h.after[1]);
      assert h.after[1..] == [h.after[1]] + [Tick(60.0)];
      RunStep(s3, h.after[1], [Tick(60.0)]);
      RunStep(s4, Tick(60.0), []);
      assert [Tick(60.0)] == [Tick(60.0)] + [];
    }
  }

  /** A check that misses both tiers caches what the database says. */
  lemma {:induction false} FirstCheck(s: Cluster, w: nat, subject: Subject, fact: Fact)
    requires w < |s.l1s| && s.l1s[w] == [] && s.l2 == map[] && s.max > 0 && Truth(s.db, subject) == Some(fact)
    ensures var key := CacheKey(subject);
            Act(s, Check(w, subject, true, true))
            == s.(l1s := s.l1s[w := [Entry(key, fact, s.now)]], l2 := map[key := Cell(fact, s.now + CONTROL_PLANE)])
  {
    SetOnEmpty(CacheKey(subject), fact, s.now, s.max);
  }

  lemma {:induction false} SetOnEmpty(key: string, fact: Fact, now: real, max: nat)
    requires max > 0
    ensures AfterSet([], key, fact, now, max) == [Entry(key, fact, now)]
  {
    var empty: Store<Fact> := [];
    assert Without(empty, key) + [Entry(key, fact, now)] == [Entry(key, fact, now)];
  }

  /** A check that finds a live cell in the shared tier stamps it afresh in the worker's own. */
  lemma {:induction false} Promotion(s: Cluster, w: nat, subject: Subject, fact: Fact)
    requires w < |s.l1s| && s.l1s[w] == [] && s.max > 0
    requires var key := CacheKey(subject); key in s.l2 && s.l2[key].value == fact && s.now <= s.l2[key].expires
    ensures Act(s, Check(w, subject, true, true)) == s.(l1s := s.l1s[w := [Entry(CacheKey(subject), fact, s.now)]])
  {
    SetOnEmpty(CacheKey(subject), fact, s.now, s.max);
  }
}
