/** The greedy packing that the PDF word wrapper and the markdown chunker share: put items into
    the current group while the group still fits, and open a new group otherwise. */
module GreedyPacking {
  import opened Text

  /** How groups are measured: the size of an item, the size of the separator between two items,
      and the size a group of several items may not exceed. */
  datatype Measure<!T> = Measure(size: T -> nat, gap: nat, limit: int)

  function Weight<T>(group: seq<T>, m: Measure<T>): nat
  {
    if group == [] then 0
    else if |group| == 1 then m.size(group[0])
    else m.size(group[0]) + m.gap + Weight(group[1..], m)
  }

  /** A group is acceptable when it is within the limit or cannot be made smaller. */
  predicate Acceptable<T>(group: seq<T>, m: Measure<T>)
  {
    |group| == 1 || (group != [] && Weight(group, m) <= m.limit)
  }

  /** Any way, greedy or not, to break `items` into acceptable groups. */
  ghost predicate IsPacking<T>(groups: seq<seq<T>>, items: seq<T>, m: Measure<T>)
  {
    Flatten(groups) == items && forall g :: g in groups ==> Acceptable(g, m)
  }

  /** The greedy packing of `current + rest`, where `current` is the group being filled. */
  function Pack<T>(current: seq<T>, rest: seq<T>, m: Measure<T>): (groups: seq<seq<T>>)
    ensures groups != []
    decreases |rest|
  {
    if rest == [] then [current]
    else if Weight(current + [rest[0]], m) > m.limit then [current] + Pack([rest[0]], rest[1..], m)
    else Pack(current + [rest[0]], rest[1..], m)
  }

  lemma {:induction false} PackIsPacking<T>(current: seq<T>, rest: seq<T>, m: Measure<T>)
    requires Acceptable(current, m)
    ensures IsPacking(Pack(current, rest, m), current + rest, m)
    decreases |rest|
  {
    if rest == [] {
      assert Flatten([current]) == current + [] == current + rest;
    } else if Weight(current + [rest[0]], m) > m.limit {
      PackIsPacking([rest[0]], rest[1..], m);
      var later := Pack([rest[0]], rest[1..], m);
      assert Flatten([current] + later) == current + Flatten(later);
      assert current + ([rest[0]] + rest[1..]) == current + rest;
    } else {
      PackIsPacking(current + [rest[0]], rest[1..], m);
      assert (current + [rest[0]]) + rest[1..] == current + rest;
    }
  }

  lemma {:induction false} SuffixIsLighter<T>(pre: seq<T>, group: seq<T>, m: Measure<T>)
    requires group != []
    ensures Weight(group, m) <= Weight(pre + group, m)
  {
    if pre == [] {
      assert pre + group == group;
    } else {
      assert (pre + group)[1..] == pre[1..] + group;
      SuffixIsLighter(pre[1..], group, m);
    }
  }

  lemma {:induction false} PrefixIsLighter<T>(group: seq<T>, post: seq<T>, m: Measure<T>)
    ensures Weight(group, m) <= Weight(group + post, m)
  {
    if post == [] {
      assert group + post == group;
    } else if |group| >= 1 {
      assert (group + post)[1..] == group[1..] + post;
      PrefixIsLighter(group[1..], post, m);
    }
  }

  /** Greedy stays ahead: however `pre + current + rest` is broken, it takes at least as many
      groups as greedy needs for `current + rest` alone. */
  lemma {:induction false} GreedyIsOptimal<T>(
    pre: seq<T>, current: seq<T>, rest: seq<T>, groups: seq<seq<T>>, m: Measure<T>)
    requires current != []
    requires IsPacking(groups, pre + current + rest, m)
    ensures |Pack(current, rest, m)| <= |groups|
    decreases |rest|
  {
    if rest == [] {
    } else if Weight(current + [rest[0]], m) > m.limit {
      var first, others := groups[0], groups[1..];
      var before := pre + current;
      assert Flatten(groups) == first + Flatten(others);
      FirstGroupStops(pre, current, rest, first, Flatten(others), m);
      assert Flatten(others) == before[|first|..] + [rest[0]] + rest[1..];
      GreedyIsOptimal(before[|first|..], [rest[0]], rest[1..], others, m);
    } else {
      assert pre + (current + [rest[0]]) + rest[1..] == pre + current + rest;
      GreedyIsOptimal(pre, current + [rest[0]], rest[1..], groups, m);
    }
  }

  /** A first group that starts no later than `current` cannot reach past the item at which
      greedy had to stop. */
  lemma {:induction false} FirstGroupStops<T>(
    pre: seq<T>, current: seq<T>, rest: seq<T>, first: seq<T>, others: seq<T>, m: Measure<T>)
    requires current != [] && rest != []
    requires Weight(current + [rest[0]], m) > m.limit
    requires Acceptable(first, m) && first + others == pre + current + rest
    ensures |first| <= |pre + current|
    ensures others == (pre + current)[|first|..] + rest
  {
    var all := pre + current + rest;
    var k := |pre + current|;
    if |first| > k {
      assert first == all[..|first|];
      var reached := pre + (current + [rest[0]]);
      assert first == reached + first[k + 1..];
      SuffixIsLighter(pre, current + [rest[0]], m);
      PrefixIsLighter(reached, first[k + 1..], m);
    }
    assert others == all[|first|..];
  }
}
