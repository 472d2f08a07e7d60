/** The in-memory cache of a worker: entries in order of use, the least recently used one first. */
module LruCache {
  import opened Wrappers

  datatype Entry<V> = Entry(key: string, value: V, at: real)

  type Store<V> = seq<Entry<V>>

  ghost predicate DistinctKeys<V(!new)>(s: Store<V>)
  {
    forall i, j :: 0 <= i < j < |s| ==> s[i].key != s[j].key
  }

  function Find<V(!new)>(s: Store<V>, key: string): (r: Option<Entry<V>>)
    ensures r.Some? ==> r.value in s && r.value.key == key
    ensures r.None? ==> forall e :: e in s ==> e.key != key
  {
    if s == [] then None
    else if s[0].key == key then Some(s[0])
    else Find(s[1..], key)
  }

  /** The store without the entry for `key`. */
  function Without<V(!new)>(s: Store<V>, key: string): (r: Store<V>)
    ensures forall e :: e in r <==> e in s && e.key != key
  {
    if s == [] then []
    else if s[0].key == key then Without(s[1..], key)
    else [s[0]] + Without(s[1..], key)
  }

  predicate Expired<V(!new)>(e: Entry<V>, ttl: real, now: real)
  {
    now - e.at > ttl
  }

  function GetResult<V(!new)>(s: Store<V>, key: string, ttl: real, now: real): Option<V>
  {
    match Find(s, key)
    case None => None
    case Some(e) => if Expired(e, ttl, now) then None else Some(e.value)
  }

  /** An expired entry is dropped, a live one becomes the most recently used. */
  function AfterGet<V(!new)>(s: Store<V>, key: string, ttl: real, now: real): Store<V>
  {
    match Find(s, key)
    case None => s
    case Some(e) => if Expired(e, ttl, now) then Without(s, key) else Without(s, key) + [e]
  }

  /** Drop the least recently used entries above the capacity. */
  function Evicted<V(!new)>(s: Store<V>, max: nat): (r: Store<V>)
    ensures |r| <= max
  {
    if |s| <= max then s else Evicted(s[1..], max)
  }

  function AfterSet<V(!new)>(s: Store<V>, key: string, value: V, now: real, max: nat): Store<V>
  {
    Evicted(Without(s, key) + [Entry(key, value, now)], max)
  }

  /** The entries whose key does not start with the prefix; no prefix drops everything. */
  function AfterInvalidate<V(!new)>(s: Store<V>, prefix: Option<string>): (r: Store<V>)
    ensures forall e :: e in r <==> e in s && !Matches(e.key, prefix)
  {
    if s == [] then []
    else if Matches(s[0].key, prefix) then AfterInvalidate(s[1..], prefix)
    else [s[0]] + AfterInvalidate(s[1..], prefix)
  }

  predicate Matches(key: string, prefix: Option<string>)
  {
    prefix.None? || prefix.value <= key
  }

  // ---------- the class ----------

  class Lru<V(==, !new)> {
    const maxSize: nat
    var store: Store<V>

    ghost predicate Valid()
      reads this
    {
      DistinctKeys(store) && |store| <= maxSize
    }

    constructor (maxSize: nat)
      ensures Valid() && store == [] && this.maxSize == maxSize
    {
      this.maxSize := maxSize;
      store := [];
    }

    method Get(key: string, ttl: real, now: real) returns (r: Option<V>)
      requires Valid()
      modifies this
      ensures Valid()
      ensures r == GetResult(old(store), key, ttl, now) && store == AfterGet(old(store), key, ttl, now)
    {
      WithoutIsSmaller(store, key);
      WithoutIsDistinct(store, key);
      var found := Find(store, key);
      if found.None? {
        return None;
      }
      var e := found.value;
      store := Without(store, key);
      if Expired(e, ttl, now) {
        return None;
      }
      AppendIsDistinct(store, e);
      store := store + [e];
      r := Some(e.value);
    }

    method Set(key: string, value: V, now: real)
      requires Valid()
      modifies this
      ensures Valid()
      ensures store == AfterSet(old(store), key, value, now, maxSize)
    {
      WithoutIsSmaller(store, key);
      WithoutIsDistinct(store, key);
      AppendIsDistinct(Without(store, key), Entry(key, value, now));
      store := Without(store, key) + [Entry(key, value, now)];
      while |store| > maxSize
        invariant DistinctKeys(store)
        invariant Evicted(store, maxSize) == AfterSet(old(store), key, value, now, maxSize)
      {
        store := store[1..];
      }
    }

    /** Drop all entries, or those whose key starts with the prefix; returns how many. */
    method Invalidate(prefix: Option<string>) returns (count: nat)
      requires Valid()
      modifies this
      ensures Valid()
      ensures store == AfterInvalidate(old(store), prefix) && count == |old(store)| - |store|
    {
      var kept: Store<V>;
      kept, count := Unmatched(store, prefix);
      InvalidateIsDistinct(store, prefix);
      store := kept;
    }
  }

  /** The entries that an invalidation keeps, and the number of those it drops. */
  method Unmatched<V(!new)>(s: Store<V>, prefix: Option<string>) returns (kept: Store<V>, count: nat)
    ensures kept == AfterInvalidate(s, prefix) && count + |kept| == |s|
  {
    kept, count := [], 0;
    for i := 0 to |s|
      invariant count + |kept| == i
      invariant AfterInvalidate(s, prefix) == kept + AfterInvalidate(s[i..], prefix)
    {
      InvalidateUnrolled(s, i, prefix, kept);
      if Matches(s[i].key, prefix) {
        count := count + 1;
      } else {
        kept := kept + [s[i]];
      }
    }
  }

  lemma {:induction false} InvalidateUnrolled<V(!new)>(s: Store<V>, i: nat, prefix: Option<string>, kept: Store<V>)
    requires i < |s|
    ensures kept + AfterInvalidate(s[i..], prefix)
         == (if Matches(s[i].key, prefix) then kept else kept + [s[i]]) + AfterInvalidate(s[i + 1..], prefix)
  {
    assert s[i..][1..] == s[i + 1..];
    assert kept + ([s[i]] + AfterInvalidate(s[i + 1..], prefix)) == kept + [s[i]] + AfterInvalidate(s[i + 1..], prefix);
  }

  // ---------- keys stay distinct ----------

  lemma {:induction false} WithoutIsDistinct<V(!new)>(s: Store<V>, key: string)
    requires DistinctKeys(s)
    ensures DistinctKeys(Without(s, key))
  {
    if s != [] {
      WithoutIsDistinct(s[1..], key);
    }
  }

  lemma {:induction false} AppendIsDistinct<V(!new)>(s: Store<V>, e: Entry<V>)
    requires DistinctKeys(s) && forall x :: x in s ==> x.key != e.key
    ensures DistinctKeys(s + [e])
  {
    forall i | 0 <= i < |s| ensures s[i].key != e.key {
      assert s[i] in s;
    }
  }

  lemma {:induction false} InvalidateIsDistinct<V(!new)>(s: Store<V>, prefix: Option<string>)
    requires DistinctKeys(s)
    ensures DistinctKeys(AfterInvalidate(s, prefix)) && |AfterInvalidate(s, prefix)| <= |s|
  {
    if s != [] {
      InvalidateIsDistinct(s[1..], prefix);
    }
  }

  /** Removing a key shortens the store by one exactly when the key is there. */
  lemma {:induction false} WithoutIsSmaller<V(!new)>(s: Store<V>, key: string)
    requires DistinctKeys(s)
    ensures |Without(s, key)| == if Find(s, key).Some? then |s| - 1 else |s|
  {
    if s != [] {
      WithoutIsSmaller(s[1..], key);
      if s[0].key == key {
        forall e | e in s[1..] ensures e.key != key {
        }
        WithoutAbsent(s[1..], key);
      }
    }
  }

  lemma {:induction false} WithoutAbsent<V(!new)>(s: Store<V>, key: string)
    requires forall e :: e in s ==> e.key != key
    ensures Without(s, key) == s
  {
    if s != [] {
      WithoutAbsent(s[1..], key);
    }
  }

  // ---------- inclusion: a larger cache always holds what a smaller one holds ----------

  /** `a` arises from `b` by leaving out entries. */
  ghost predicate Sub<V(!new)>(a: Store<V>, b: Store<V>)
  {
    if a == [] then true
    else if b == [] then false
    else (a[0] == b[0] && Sub(a[1..], b[1..])) || Sub(a, b[1..])
  }

  lemma {:induction false} SubMember<V(!new)>(a: Store<V>, b: Store<V>)
    requires Sub(a, b)
    ensures |a| <= |b| && forall e :: e in a ==> e in b
    decreases |b|
  {
    if a != [] {
      if a[0] == b[0] && Sub(a[1..], b[1..]) {
        SubMember(a[1..], b[1..]);
        assert forall e :: e in a ==> e == a[0] || e in a[1..];
      } else {
        SubMember(a, b[1..]);
      }
    }
  }

  lemma {:induction false} SubTail<V(!new)>(a: Store<V>, b: Store<V>)
    requires a != [] && Sub(a, b)
    ensures Sub(a[1..], b) && b != [] && Sub(a[1..], b[1..])
    decreases |b|
  {
    if a[0] == b[0] && Sub(a[1..], b[1..]) {
      SubOfLonger(a[1..], b);
    } else {
      SubTail(a, b[1..]);
      SubOfLonger(a[1..], b);
    }
  }

  lemma {:induction false} SubOfLonger<V(!new)>(a: Store<V>, b: Store<V>)
    requires b != [] && Sub(a, b[1..])
    ensures Sub(a, b)
  {
  }

  lemma {:induction false} SubWithout<V(!new)>(a: Store<V>, b: Store<V>, key: string)
    requires Sub(a, b)
    ensures Sub(Without(a, key), Without(b, key))
    decreases |b|
  {
    if a != [] {
      if a[0] == b[0] && Sub(a[1..], b[1..]) {
        SubWithout(a[1..], b[1..], key);
        if b[0].key != key {
          ConsTail(a[0], Without(a[1..], key));
          ConsTail(b[0], Without(b[1..], key));
        }
      } else {
        SubWithout(a, b[1..], key);
        if b[0].key != key {
          ConsTail(b[0], Without(b[1..], key));
        }
      }
    }
  }

  lemma {:induction false} ConsTail<V(!new)>(e: Entry<V>, s: Store<V>)
    ensures ([e] + s)[1..] == s && ([e] + s)[0] == e
  {
  }

  lemma {:induction false} SubAppend<V(!new)>(a: Store<V>, b: Store<V>, e: Entry<V>)
    requires Sub(a, b)
    ensures Sub(a + [e], b + [e]) && Sub(a, b + [e])
    decreases |b|
  {
    if b == [] {
      assert a == [] && [e][1..] == [];
    } else {
      assert (b + [e])[1..] == b[1..] + [e];
      if a == [] {
        SubAppend([], b[1..], e);
      } else if a[0] == b[0] && Sub(a[1..], b[1..]) {
        SubAppend(a[1..], b[1..], e);
        assert (a + [e])[1..] == a[1..] + [e];
      } else {
        SubAppend(a, b[1..], e);
      }
    }
  }

  lemma {:induction false} SubInvalidate<V(!new)>(a: Store<V>, b: Store<V>, prefix: Option<string>)
    requires Sub(a, b)
    ensures var a', b' := AfterInvalidate(a, prefix), AfterInvalidate(b, prefix);
            Sub(a', b') && |b'| - |a'| <= |b| - |a|
    decreases |b|
  {
    if a == [] {
      InvalidateIsSmaller(b, prefix);
    } else if a[0] == b[0] && Sub(a[1..], b[1..]) {
      SubInvalidate(a[1..], b[1..], prefix);
      if !Matches(b[0].key, prefix) {
        ConsTail(a[0], AfterInvalidate(a[1..], prefix));
        ConsTail(b[0], AfterInvalidate(b[1..], prefix));
      }
    } else {
      SubInvalidate(a, b[1..], prefix);
      if !Matches(b[0].key, prefix) {
        ConsTail(b[0], AfterInvalidate(b[1..], prefix));
      }
    }
  }

  lemma {:induction false} InvalidateIsSmaller<V(!new)>(s: Store<V>, prefix: Option<string>)
    ensures |AfterInvalidate(s, prefix)| <= |s|
  {
    if s != [] {
      InvalidateIsSmaller(s[1..], prefix);
    }
  }

  /** A key of the smaller store has the same entry in the larger one. */
  lemma {:induction false} SubFind<V(!new)>(a: Store<V>, b: Store<V>, key: string)
    requires Sub(a, b) && DistinctKeys(b)
    ensures Find(a, key).Some? ==> Find(b, key) == Find(a, key)
  {
    SubMember(a, b);
    if Find(a, key).Some? {
      UniqueEntry(b, Find(a, key).value);
    }
  }

  lemma {:induction false} UniqueEntry<V(!new)>(s: Store<V>, e: Entry<V>)
    requires DistinctKeys(s) && e in s
    ensures Find(s, e.key) == Some(e)
  {
    if s[0] != e {
      assert e in s[1..];
      UniqueEntry(s[1..], e);
    }
  }

  /** What holds between caches of capacities m <= n that have seen the same operations: the smaller
      one arises from the larger by leaving entries out, and lacks at most n - m of them. */
  ghost predicate Included<V(!new)>(a: Store<V>, m: nat, b: Store<V>, n: nat)
  {
    Sub(a, b) && DistinctKeys(a) && DistinctKeys(b) && |a| <= m && |b| <= n && |b| - |a| <= n - m
  }

  lemma {:induction false} GetKeepsIncluded<V(!new)>(a: Store<V>, m: nat, b: Store<V>, n: nat, key: string, ttl: real,
                                                     now: real)
    requires m <= n && Included(a, m, b, n)
    ensures Included(AfterGet(a, key, ttl, now), m, AfterGet(b, key, ttl, now), n)
    ensures GetResult(a, key, ttl, now).Some? ==> GetResult(b, key, ttl, now) == GetResult(a, key, ttl, now)
  {
    SubFind(a, b, key);
    SubWithout(a, b, key);
    WithoutIsSmaller(a, key);
    WithoutIsSmaller(b, key);
    WithoutIsDistinct(a, key);
    WithoutIsDistinct(b, key);
    if Find(b, key).Some? {
      var e := Find(b, key).value;
      AppendIsDistinct(Without(b, key), e);
      AppendIsDistinct(Without(a, key), e);
      SubAppend(Without(a, key), Without(b, key), e);
      if Find(a, key).None? {
        WithoutAbsent(a, key);
      }
    }
  }

  lemma {:induction false} EvictedIsDistinct<V(!new)>(s: Store<V>, max: nat)
    requires DistinctKeys(s)
    ensures DistinctKeys(Evicted(s, max))
  {
    if |s| > max {
      EvictedIsDistinct(s[1..], max);
    }
  }

  lemma {:induction false} EvictOne<V(!new)>(s: Store<V>, max: nat)
    requires |s| <= max + 1
    ensures Evicted(s, max) == if |s| == max + 1 then s[1..] else s
  {
  }

  lemma {:induction false} SetKeepsIncluded<V(!new)>(a: Store<V>, m: nat, b: Store<V>, n: nat, key: string, value: V,
                                                     now: real)
    requires m <= n && Included(a, m, b, n)
    ensures Included(AfterSet(a, key, value, now, m), m, AfterSet(b, key, value, now, n), n)
  {
    var e := Entry(key, value, now);
    var a', b' := Without(a, key) + [e], Without(b, key) + [e];
    SubFind(a, b, key);
    SubWithout(a, b, key);
    WithoutIsSmaller(a, key);
    WithoutIsSmaller(b, key);
    WithoutIsDistinct(a, key);
    WithoutIsDistinct(b, key);
    AppendIsDistinct(Without(a, key), e);
    AppendIsDistinct(Without(b, key), e);
    SubAppend(Without(a, key), Without(b, key), e);
    EvictedIsDistinct(a', m);
    EvictedIsDistinct(b', n);
    EvictOne(a', m);
    EvictOne(b', n);
    SubTail(a', b');
  }

  lemma {:induction false} InvalidateKeepsIncluded<V(!new)>(a: Store<V>, m: nat, b: Store<V>, n: nat,
                                                            prefix: Option<string>)
    requires m <= n && Included(a, m, b, n)
    ensures Included(AfterInvalidate(a, prefix), m, AfterInvalidate(b, prefix), n)
  {
    SubInvalidate(a, b, prefix);
    InvalidateIsDistinct(a, prefix);
    InvalidateIsDistinct(b, prefix);
  }

  // ---------- traces ----------

  datatype Op<V> =
    | Get(key: string, ttl: real, now: real)
    | Set(key: string, value: V, now: real)
    | Invalidate(prefix: Option<string>)

  function Step<V(!new)>(s: Store<V>, op: Op<V>, max: nat): Store<V>
  {
    match op
    case Get(key, ttl, now) => AfterGet(s, key, ttl, now)
    case Set(key, value, now) => AfterSet(s, key, value, now, max)
    case Invalidate(prefix) => AfterInvalidate(s, prefix)
  }

  /** The store after a trace, from an empty cache. */
  function Run<V(!new)>(ops: seq<Op<V>>, max: nat): Store<V>
  {
    if ops == [] then [] else Step(Run(ops[..|ops| - 1], max), ops[|ops| - 1], max)
  }

  /** Inclusion: on every trace the smaller cache holds a part of what the larger one holds, with
      equal values and stamps, and neither exceeds its capacity. */
  lemma {:induction false} Inclusion<V(!new)>(ops: seq<Op<V>>, m: nat, n: nat)
    requires m <= n
    ensures Included(Run(ops, m), m, Run(ops, n), n)
  {
    if ops != [] {
      var before, op := ops[..|ops| - 1], ops[|ops| - 1];
      Inclusion(before, m, n);
      match op
      case Get(key, ttl, now) => GetKeepsIncluded(Run(before, m), m, Run(before, n), n, key, ttl, now);
      case Set(key, value, now) => SetKeepsIncluded(Run(before, m), m, Run(before, n), n, key, value, now);
      case Invalidate(prefix) => InvalidateKeepsIncluded(Run(before, m), m, Run(before, n), n, prefix);
    }
  }

  /** A hit in a smaller cache is the same hit in every larger one. */
  lemma {:induction false} LargerCacheHitsToo<V(!new)>(ops: seq<Op<V>>, m: nat, n: nat, key: string, ttl: real,
                                                       now: real)
    requires m <= n && GetResult(Run(ops, m), key, ttl, now).Some?
    ensures GetResult(Run(ops, n), key, ttl, now) == GetResult(Run(ops, m), key, ttl, now)
  {
    Inclusion(ops, m, n);
    GetKeepsIncluded(Run(ops, m), m, Run(ops, n), n, key, ttl, now);
  }

  // ---------- what was used lately stays ----------

  function RunFrom<V(!new)>(s: Store<V>, ops: seq<Op<V>>, max: nat): Store<V>
    decreases ops
  {
    if ops == [] then s else RunFrom(Step(s, ops[0], max), ops[1..], max)
  }

  lemma {:induction false} RunSplits<V(!new)>(before: seq<Op<V>>, later: seq<Op<V>>, max: nat)
    ensures Run(before + later, max) == RunFrom(Run(before, max), later, max)
    decreases |later|
  {
    if later == [] {
      assert before + later == before;
    } else {
      var all := before + [later[0]];
      assert before + later == all + later[1..] && all[..|all| - 1] == before;
      RunSplits(all, later[1..], max);
    }
  }

  /** The keys that are asked for or set. */
  function Touched<V(!new)>(ops: seq<Op<V>>): set<string>
  {
    if ops == [] then {}
    else (if ops[0].Invalidate? then {} else {ops[0].key}) + Touched(ops[1..])
  }

  /** No operation sets or invalidates the key of the entry, or finds it expired. */
  predicate Spares<V(!new)>(op: Op<V>, e: Entry<V>)
  {
    match op
    case Get(key, ttl, now) => key == e.key ==> now - e.at <= ttl
    case Set(key, _, _) => key != e.key
    case Invalidate(prefix) => prefix.Some? && !(prefix.value <= e.key)
  }

  ghost predicate AllSpare<V(!new)>(ops: seq<Op<V>>, e: Entry<V>)
  {
    forall i :: 0 <= i < |ops| ==> Spares(ops[i], e)
  }

  lemma {:induction false} WithoutSplits<V(!new)>(a: Store<V>, b: Store<V>, key: string)
    ensures Without(a + b, key) == Without(a, key) + Without(b, key)
  {
    if a == [] {
      assert a + b == b;
    } else {
      assert (a + b)[1..] == a[1..] + b;
      WithoutSplits(a[1..], b, key);
    }
  }

  lemma {:induction false} WithoutAround<V(!new)>(a: Store<V>, e: Entry<V>, b: Store<V>, key: string)
    requires e.key != key
    ensures Without(a + [e] + b, key) == Without(a, key) + [e] + Without(b, key)
  {
    WithoutSplits(a + [e], b, key);
    WithoutSplits(a, [e], key);
    WithoutAbsent([e], key);
  }

  lemma {:induction false} InvalidateSplits<V(!new)>(a: Store<V>, b: Store<V>, prefix: Option<string>)
    ensures AfterInvalidate(a + b, prefix) == AfterInvalidate(a, prefix) + AfterInvalidate(b, prefix)
  {
    if a == [] {
      assert a + b == b;
    } else {
      assert (a + b)[1..] == a[1..] + b;
      InvalidateSplits(a[1..], b, prefix);
    }
  }

  lemma {:induction false} EvictedSplits<V(!new)>(a: Store<V>, b: Store<V>, max: nat) returns (a': Store<V>)
    requires |b| <= max
    ensures Evicted(a + b, max) == a' + b
  {
    a' := a;
    if |a + b| > max {
      assert (a + b)[1..] == a[1..] + b;
      a' := EvictedSplits(a[1..], b, max);
    }
  }

  /** Distinct keys from a set are no more than the set has. */
  lemma {:induction false} FewKeys<V(!new)>(s: Store<V>, keys: set<string>)
    requires DistinctKeys(s) && forall x :: x in s ==> x.key in keys
    ensures |s| <= |keys|
  {
    if s != [] {
      FewKeys(s[1..], keys - {s[0].key});
    }
  }

  /** One operation: behind the entry there are only entries that were used after it, and it stays as long as
      these are fewer than the capacity. */
  lemma {:induction false} StepKeeps<V(!new)>(a: Store<V>, e: Entry<V>, b: Store<V>, op: Op<V>, max: nat,
                                              used: set<string>) returns (a': Store<V>, b': Store<V>)
    requires DistinctKeys(a + [e] + b) && Spares(op, e) && |used| < max && e.key !in used
    requires (forall x :: x in b ==> x.key in used) && (!op.Invalidate? && op.key != e.key ==> op.key in used)
    ensures Step(a + [e] + b, op, max) == a' + [e] + b' && DistinctKeys(a' + [e] + b')
    ensures forall x :: x in b' ==> x.key in used
  {
    var s := a + [e] + b;
    match op
    case Get(key, ttl, now) =>
      a', b' := GetKeeps(a, e, b, key, ttl, now, used);
    case Set(key, value, now) =>
      a', b' := SetKeeps(a, e, b, Entry(key, value, now), max, used);
    case Invalidate(prefix) =>
      InvalidateSplits(a + [e], b, prefix);
      InvalidateSplits(a, [e], prefix);
      InvalidateIsDistinct(s, prefix);
      a', b' := AfterInvalidate(a, prefix), AfterInvalidate(b, prefix);
      assert AfterInvalidate([e], prefix) == [e];
  }

  lemma {:induction false} SetKeeps<V(!new)>(a: Store<V>, e: Entry<V>, b: Store<V>, entry: Entry<V>, max: nat,
                                             used: set<string>) returns (a': Store<V>, b': Store<V>)
    requires DistinctKeys(a + [e] + b) && entry.key != e.key && |used| < max
    requires entry.key in used && forall x :: x in b ==> x.key in used
    ensures AfterSet(a + [e] + b, entry.key, entry.value, entry.at, max) == a' + [e] + b'
    ensures DistinctKeys(a' + [e] + b') && forall x :: x in b' ==> x.key in used
  {
    var front := Without(a, entry.key);
    b' := Without(b, entry.key) + [entry];
    UsedBehind(b, entry, used);
    WithoutAround(a, e, b, entry.key);
    WithoutIsDistinct(a + [e] + b, entry.key);
    AppendIsDistinct(Without(a + [e] + b, entry.key), entry);
    assert front + [e] + Without(b, entry.key) + [entry] == front + [e] + b';
    a' := EvictedKeeps(front, e, b', max, used);
  }

  lemma {:induction false} UsedBehind<V(!new)>(b: Store<V>, entry: Entry<V>, used: set<string>)
    requires entry.key in used && forall x :: x in b ==> x.key in used
    ensures forall x :: x in Without(b, entry.key) + [entry] ==> x.key in used
  {
  }

  lemma {:induction false} EvictedKeeps<V(!new)>(front: Store<V>, e: Entry<V>, behind: Store<V>, max: nat,
                                                 used: set<string>) returns (a': Store<V>)
    requires DistinctKeys(front + [e] + behind) && |used| < max && forall x :: x in behind ==> x.key in used
    ensures Evicted(front + [e] + behind, max) == a' + [e] + behind && DistinctKeys(a' + [e] + behind)
  {
    PartIsDistinct(front + [e], behind);
    FewKeys(behind, used);
    assert front + [e] + behind == front + ([e] + behind);
    a' := EvictedSplits(front, [e] + behind, max);
    EvictedIsDistinct(front + [e] + behind, max);
    assert a' + ([e] + behind) == a' + [e] + behind;
  }

  lemma {:induction false} PartIsDistinct<V(!new)>(a: Store<V>, b: Store<V>)
    requires DistinctKeys(a + b)
    ensures DistinctKeys(b)
  {
    assert forall i :: 0 <= i < |b| ==> b[i] == (a + b)[|a| + i];
  }

  lemma {:induction false} GetKeeps<V(!new)>(a: Store<V>, e: Entry<V>, b: Store<V>, key: string, ttl: real, now: real,
                                             used: set<string>) returns (a': Store<V>, b': Store<V>)
    requires DistinctKeys(a + [e] + b) && (key == e.key ==> now - e.at <= ttl)
    requires (forall x :: x in b ==> x.key in used) && (key != e.key ==> key in used)
    ensures AfterGet(a + [e] + b, key, ttl, now) == a' + [e] + b' && DistinctKeys(a' + [e] + b')
    ensures forall x :: x in b' ==> x.key in used
  {
    var s := a + [e] + b;
    var found := Find(s, key);
    WithoutIsDistinct(s, key);
    assert s[|a|] == e;
    if key == e.key {
      UniqueEntry(s, e);
      AppendIsDistinct(Without(s, key), e);
      a', b' := Without(s, key), [];
      assert a' + [e] + b' == a' + [e];
    } else {
      WithoutAround(a, e, b, key);
      a', b' := if found.None? then a else Without(a, key), if found.None? then b else Without(b, key);
      if found.Some? && !Expired(found.value, ttl, now) {
        AppendIsDistinct(Without(s, key), found.value);
        assert a' + [e] + (b' + [found.value]) == a' + [e] + b' + [found.value];
        b' := b' + [found.value];
      }
    }
  }

  lemma {:induction false} TraceKeeps<V(!new)>(a: Store<V>, e: Entry<V>, b: Store<V>, ops: seq<Op<V>>, max: nat,
                                               used: set<string>)
    requires DistinctKeys(a + [e] + b) && AllSpare(ops, e) && |used| < max && e.key !in used
    requires (forall x :: x in b ==> x.key in used) && Touched(ops) - {e.key} <= used
    ensures Find(RunFrom(a + [e] + b, ops, max), e.key) == Some(e)
    decreases |ops|
  {
    if ops == [] {
      assert (a + [e] + b)[|a|] == e;
      UniqueEntry(a + [e] + b, e);
    } else {
      assert Spares(ops[0], e);
      var a', b' := StepKeeps(a, e, b, ops[0], max, used);
      TraceKeeps(a', e, b', ops[1..], max, used);
    }
  }

  /** What was set stays, and is returned to whoever asks before it expires, unless as many other keys as the
      cache has places were asked for or set since then. */
  lemma {:induction false} SetStays<V(!new)>(before: seq<Op<V>>, key: string, value: V, at: real, later: seq<Op<V>>,
                                             max: nat, ttl: real, now: real)
    requires |Touched(later) - {key}| < max && AllSpare(later, Entry(key, value, at))
    ensures GetResult(Run(before + [Set(key, value, at)] + later, max), key, ttl, now)
         == if now - at > ttl then None else Some(value)
  {
    var all, e := before + [Set(key, value, at)], Entry(key, value, at);
    Inclusion(before, max, max);
    Inclusion(all, max, max);
    assert all[..|all| - 1] == before;
    var rest := EvictedSplits(Without(Run(before, max), key), [e], max);
    assert rest + [e] + [] == rest + [e];
    RunSplits(all, later, max);
    TraceKeeps(rest, e, [], later, max, Touched(later) - {key});
  }

  /** The same counted from the last hit: being asked for keeps an entry in the cache. */
  lemma {:induction false} HitStays<V(!new)>(before: seq<Op<V>>, key: string, ttl: real, now: real, later: seq<Op<V>>,
                                             max: nat)
    requires GetResult(Run(before, max), key, ttl, now).Some? && |Touched(later) - {key}| < max
    requires AllSpare(later, Find(Run(before, max), key).value)
    ensures Find(Run(before + [Get(key, ttl, now)] + later, max), key) == Find(Run(before, max), key)
  {
    var all, s := before + [Get(key, ttl, now)], Run(before, max);
    var e := Find(s, key).value;
    Inclusion(before, max, max);
    Inclusion(all, max, max);
    assert all[..|all| - 1] == before;
    assert Without(s, key) + [e] + [] == Without(s, key) + [e];
    RunSplits(all, later, max);
    TraceKeeps(Without(s, key), e, [], later, max, Touched(later) - {key});
  }

  // ---------- the reference: a map without a capacity ----------

  datatype Stamped<V> = Stamped(value: V, at: real)

  function MapGet<V(!new)>(m: map<string, Stamped<V>>, key: string, ttl: real, now: real): Option<V>
  {
    if key in m && !(now - m[key].at > ttl) then Some(m[key].value) else None
  }

  /** Only expiry and invalidation remove anything. */
  function MapStep<V(!new)>(m: map<string, Stamped<V>>, op: Op<V>): map<string, Stamped<V>>
  {
    match op
    case Get(key, ttl, now) => if key in m && now - m[key].at > ttl then m - {key} else m
    case Set(key, value, now) => m[key := Stamped(value, now)]
    case Invalidate(prefix) => map k | k in m && !Matches(k, prefix) :: m[k]
  }

  function MapRun<V(!new)>(ops: seq<Op<V>>): map<string, Stamped<V>>
  {
    if ops == [] then map[] else MapStep(MapRun(ops[..|ops| - 1]), ops[|ops| - 1])
  }

  ghost predicate Agrees<V(!new)>(s: Store<V>, m: map<string, Stamped<V>>)
  {
    forall e :: e in s ==> e.key in m && m[e.key] == Stamped(e.value, e.at)
  }

  lemma {:induction false} EvictedAgrees<V(!new)>(s: Store<V>, max: nat, m: map<string, Stamped<V>>)
    requires Agrees(s, m)
    ensures Agrees(Evicted(s, max), m)
  {
    if |s| > max {
      EvictedAgrees(s[1..], max, m);
    }
  }

  lemma {:induction false} StoreAgrees<V(!new)>(ops: seq<Op<V>>, max: nat)
    ensures Agrees(Run(ops, max), MapRun(ops))
  {
    if ops != [] {
      var before, op := ops[..|ops| - 1], ops[|ops| - 1];
      StoreAgrees(before, max);
      if op.Set? {
        var s, m := Run(before, max), MapRun(ops);
        assert Agrees(Without(s, op.key) + [Entry(op.key, op.value, op.now)], m);
        EvictedAgrees(Without(s, op.key) + [Entry(op.key, op.value, op.now)], max, m);
      }
    }
  }

  /** Every hit, whatever the capacity, returns what the unbounded map would return. */
  lemma {:induction false} HitsAreExact<V(!new)>(ops: seq<Op<V>>, max: nat, key: string, ttl: real, now: real)
    requires GetResult(Run(ops, max), key, ttl, now).Some?
    ensures MapGet(MapRun(ops), key, ttl, now) == GetResult(Run(ops, max), key, ttl, now)
  {
    StoreAgrees(ops, max);
  }
}
