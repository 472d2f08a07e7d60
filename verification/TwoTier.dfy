/** The two-tier cache of a worker: its own in-memory tier in front of a tier shared by all workers. */
module TwoTier {
  import opened Wrappers
  import opened LruCache

  // ---------- the tiers as values ----------

  datatype Cell<V> = Cell(value: V, expires: real)

  type Shared<V> = map<string, Cell<V>>

  /** An unreachable shared tier answers nothing, like a missing or expired cell. */
  function SharedGet<V>(l2: Shared<V>, key: string, now: real, up: bool): Option<V>
  {
    if up && key in l2 && now <= l2[key].expires then Some(l2[key].value) else None
  }

  /** An unreachable shared tier drops the write. */
  function SharedSet<V>(l2: Shared<V>, key: string, value: V, ttl: real, now: real, up: bool): Shared<V>
  {
    if up then l2[key := Cell(value, now + ttl)] else l2
  }

  datatype Tiers<V> = Tiers(l1: Store<V>, l2: Shared<V>)

  function LookupResult<V(!new)>(t: Tiers<V>, key: string, ttl: real, now: real, up: bool): Option<V>
  {
    var hit := GetResult(t.l1, key, ttl, now);
    if hit.Some? then hit else SharedGet(t.l2, key, now, up)
  }

  /** A hit in the shared tier is copied to the worker's own tier and stamped with the present time. */
  function AfterLookup<V(!new)>(t: Tiers<V>, key: string, ttl: real, now: real, up: bool, max: nat): Tiers<V>
  {
    var l1 := AfterGet(t.l1, key, ttl, now);
    var shared := SharedGet(t.l2, key, now, up);
    if GetResult(t.l1, key, ttl, now).None? && shared.Some?
    then Tiers(AfterSet(l1, key, shared.value, now, max), t.l2)
    else Tiers(l1, t.l2)
  }

  function AfterPut<V(!new)>(t: Tiers<V>, key: string, value: V, ttl: real, now: real, up: bool, max: nat): Tiers<V>
  {
    Tiers(AfterSet(t.l1, key, value, now, max), SharedSet(t.l2, key, value, ttl, now, up))
  }

  /** A read-through: both tiers, then the database, whose answer is cached when there is one. */
  function CheckResult<V(!new)>(t: Tiers<V>, key: string, truth: Option<V>, ttl: real, now: real, up: bool): Option<V>
  {
    var hit := LookupResult(t, key, ttl, now, up);
    if hit.Some? then hit else truth
  }

  function AfterCheck<V(!new)>(t: Tiers<V>, key: string, truth: Option<V>, ttl: real, now: real, getUp: bool,
                               setUp: bool, max: nat): Tiers<V>
  {
    var t' := AfterLookup(t, key, ttl, now, getUp, max);
    if LookupResult(t, key, ttl, now, getUp).None? && truth.Some?
    then AfterPut(t', key, truth.value, ttl, now, setUp, max)
    else t'
  }

  // ---------- the classes ----------

  class Redis<V(==, !new)> {
    var data: Shared<V>

    constructor ()
      ensures data == map[]
    {
      data := map[];
    }

    method Get(key: string, now: real, up: bool) returns (r: Option<V>)
      ensures r == SharedGet(data, key, now, up)
    {
      if !up || key !in data {
        return None;
      }
      return if now <= data[key].expires then Some(data[key].value) else None;
    }

    method SetEx(key: string, value: V, ttl: real, now: real, up: bool)
      modifies this
      ensures data == SharedSet(old(data), key, value, ttl, now, up)
    {
      if up {
        data := data[key := Cell(value, now + ttl)];
      }
    }
  }

  /** One worker's view: its own tier, and the tier it shares with the other workers. */
  class CacheService<V(==, !new)> {
    const l1: Lru<V>
    const l2: Redis<V>

    ghost predicate Valid()
      reads this, l1
    {
      l1.Valid()
    }

    ghost function State(): Tiers<V>
      reads this, l1, l2
    {
      Tiers(l1.store, l2.data)
    }

    constructor (maxSize: nat, shared: Redis<V>)
      ensures Valid() && fresh(l1) && l2 == shared && l1.maxSize == maxSize
      ensures State() == Tiers([], shared.data)
    {
      l1 := new Lru<V>(maxSize);
      l2 := shared;
    }

    method Lookup(key: string, ttl: real, now: real, up: bool) returns (r: Option<V>)
      requires Valid()
      modifies l1
      ensures Valid() && r == LookupResult(old(State()), key, ttl, now, up)
      ensures State() == AfterLookup(old(State()), key, ttl, now, up, l1.maxSize)
    {
      r := l1.Get(key, ttl, now);
      if r.Some? {
        return;
      }
      r := l2.Get(key, now, up);
      if r.Some? {
        l1.Set(key, r.value, now);
      }
    }

    method Put(key: string, value: V, ttl: real, now: real, up: bool)
      requires Valid()
      modifies l1, l2
      ensures Valid() && State() == AfterPut(old(State()), key, value, ttl, now, up, l1.maxSize)
    {
      l1.Set(key, value, now);
      l2.SetEx(key, value, ttl, now, up);
    }

    /** The suspension check and the grant check: `truth` is what the database answers when asked. */
    method Check(key: string, truth: Option<V>, ttl: real, now: real, getUp: bool, setUp: bool) returns (r: Option<V>)
      requires Valid()
      modifies l1, l2
      ensures Valid() && r == CheckResult(old(State()), key, truth, ttl, now, getUp)
      ensures State() == AfterCheck(old(State()), key, truth, ttl, now, getUp, setUp, l1.maxSize)
    {
      var cached := Lookup(key, ttl, now, getUp);
      r := if cached.Some? then cached else truth;
      if cached.None? && truth.Some? {
        Put(key, truth.value, ttl, now, setUp);
      }
    }
  }

  // ---------- how old an outdated answer can be ----------

  /** About `key`, both tiers hold either `value` or something that dates from no later than `limit`:
      an entry of the worker's tier was stamped by then, a cell of the shared tier expires by then. */
  ghost predicate L1Current<V>(l1: Store<V>, key: string, value: V, limit: real)
  {
    forall e :: e in l1 && e.key == key ==> e.value == value || e.at <= limit
  }

  predicate L2Current<V(==)>(l2: Shared<V>, key: string, value: V, limit: real)
  {
    key in l2 ==> l2[key].value == value || l2[key].expires <= limit
  }

  ghost predicate Current<V(!new)>(t: Tiers<V>, key: string, value: V, limit: real)
  {
    L1Current(t.l1, key, value, limit) && L2Current(t.l2, key, value, limit)
  }

  lemma {:induction false} EvictedIsPart<V(!new)>(s: Store<V>, max: nat)
    ensures forall e :: e in Evicted(s, max) ==> e in s
  {
    if |s| > max {
      EvictedIsPart(s[1..], max);
    }
  }

  lemma {:induction false} SetIsPart<V(!new)>(s: Store<V>, key: string, value: V, now: real, max: nat)
    ensures forall e :: e in AfterSet(s, key, value, now, max) ==>
              (e in s && e.key != key) || e == Entry(key, value, now)
  {
    EvictedIsPart(Without(s, key) + [Entry(key, value, now)], max);
  }

  lemma {:induction false} GetIsPart<V(!new)>(s: Store<V>, key: string, ttl: real, now: real)
    ensures forall e :: e in AfterGet(s, key, ttl, now) ==> e in s
  {
  }

  /** Looking up any key adds nothing outdated: promotion re-stamps an outdated value only before it expires. */
  lemma {:induction false} LookupKeepsCurrent<V(!new)>(t: Tiers<V>, key: string, value: V, limit: real, k: string,
                                                       ttl: real, now: real, up: bool, max: nat)
    requires Current(t, key, value, limit)
    ensures Current(AfterLookup(t, k, ttl, now, up, max), key, value, limit)
  {
    GetIsPart(t.l1, k, ttl, now);
    var shared := SharedGet(t.l2, k, now, up);
    if shared.Some? {
      SetIsPart(AfterGet(t.l1, k, ttl, now), k, shared.value, now, max);
    }
  }

  lemma {:induction false} PutKeepsCurrent<V(!new)>(t: Tiers<V>, key: string, value: V, limit: real, k: string, v: V,
                                                    ttl: real, now: real, up: bool, max: nat)
    requires Current(t, key, value, limit) && (k == key ==> v == value)
    ensures Current(AfterPut(t, k, v, ttl, now, up, max), key, value, limit)
  {
    SetIsPart(t.l1, k, v, now, max);
  }

  /** An answer from tiers that are current is the value, or comes no later than `ttl` after the limit. */
  lemma {:induction false} CurrentAnswers<V(!new)>(t: Tiers<V>, key: string, value: V, limit: real, ttl: real,
                                                   now: real, up: bool)
    requires Current(t, key, value, limit) && ttl >= 0.0
    ensures var r := LookupResult(t, key, ttl, now, up);
            r.None? || r.value == value || now <= limit + ttl
  {
  }
}
