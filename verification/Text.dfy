/** The string operations of Python and JavaScript that the modelled code is written with:
    strip/trim, split, join, find, replace and the printing of integers in base ten. */
module Text {
  import opened Wrappers

  // ---------- strip / trim ----------

  /** The code points that Python's str.strip() removes. */
  predicate PySpace(c: char)
  {
    '\t' <= c <= '\r' || '\U{1C}' <= c <= ' ' || c == '\U{85}' || c == '\U{A0}' || c == '\U{1680}'
    || '\U{2000}' <= c <= '\U{200A}' || c == '\U{2028}' || c == '\U{2029}' || c == '\U{202F}'
    || c == '\U{205F}' || c == '\U{3000}'
  }

  /** The code points that JavaScript's String.prototype.trim() removes. */
  predicate JsSpace(c: char)
  {
    '\t' <= c <= '\r' || c == ' ' || c == '\U{A0}' || c == '\U{1680}'
    || '\U{2000}' <= c <= '\U{200A}' || c == '\U{2028}' || c == '\U{2029}' || c == '\U{202F}'
    || c == '\U{205F}' || c == '\U{3000}' || c == '\U{FEFF}'
  }

  /** The two languages disagree on six code points only. */
  lemma {:induction false} SpacesAreListed(c: char)
    ensures PySpace(c) <==> c as int in {9, 10, 11, 12, 13, 28, 29, 30, 31, 32, 0x85, 0xA0, 0x1680, 0x2000, 0x2001,
                                         0x2002, 0x2003, 0x2004, 0x2005, 0x2006, 0x2007, 0x2008, 0x2009, 0x200A,
                                         0x2028, 0x2029, 0x202F, 0x205F, 0x3000}
    ensures JsSpace(c) <==>
              if c as int in {28, 29, 30, 31, 0x85} then false else if c as int == 0xFEFF then true else PySpace(c)
  {
  }

  function TrimLeft(s: string, blank: char -> bool): (r: string)
    ensures r == [] || !blank(r[0])
  {
    if s != [] && blank(s[0]) then TrimLeft(s[1..], blank) else s
  }

  function TrimRight(s: string, blank: char -> bool): (r: string)
    ensures r <= s
    ensures r == [] || !blank(r[|r| - 1])
  {
    if s != [] && blank(s[|s| - 1]) then TrimRight(s[..|s| - 1], blank) else s
  }

  function Trim(s: string, blank: char -> bool): string
  {
    TrimRight(TrimLeft(s, blank), blank)
  }

  function Strip(s: string): string
  {
    Trim(s, PySpace)
  }

  /** Neither end of `s` is blank, so trimming leaves it alone. */
  predicate Unpadded(s: string, blank: char -> bool)
  {
    s != [] && !blank(s[0]) && !blank(s[|s| - 1])
  }

  lemma {:induction false} TrimUnpadded(s: string, blank: char -> bool)
    requires Unpadded(s, blank)
    ensures Trim(s, blank) == s
  {
  }

  lemma {:induction false} TrimLeftDrops(pre: string, s: string, blank: char -> bool)
    requires forall i :: 0 <= i < |pre| ==> blank(pre[i])
    ensures TrimLeft(pre + s, blank) == TrimLeft(s, blank)
  {
    if pre == [] {
      assert pre + s == s;
    } else {
      assert (pre + s)[1..] == pre[1..] + s;
      TrimLeftDrops(pre[1..], s, blank);
    }
  }

  /** Whatever Trim returns is empty or unpadded. */
  lemma {:induction false} TrimIsUnpadded(s: string, blank: char -> bool)
    ensures Trim(s, blank) == [] || Unpadded(Trim(s, blank), blank)
  {
  }

  ghost predicate Blank(s: string, blank: char -> bool)
  {
    forall i :: 0 <= i < |s| ==> blank(s[i])
  }

  /** Trimming takes nothing but blanks away, from both ends. */
  lemma {:induction false} TrimTakesBlanks(s: string, blank: char -> bool) returns (a: string, c: string)
    ensures s == a + Trim(s, blank) + c && Blank(a, blank) && Blank(c, blank)
  {
    a := LeftBlanks(s, blank);
    c := RightBlanks(TrimLeft(s, blank), blank);
    assert a + (Trim(s, blank) + c) == a + Trim(s, blank) + c;
  }

  lemma {:induction false} LeftBlanks(s: string, blank: char -> bool) returns (a: string)
    ensures s == a + TrimLeft(s, blank) && Blank(a, blank)
  {
    if s != [] && blank(s[0]) {
      a := LeftBlanks(s[1..], blank);
      assert s == [s[0]] + a + TrimLeft(s, blank);
      a := [s[0]] + a;
    } else {
      a := "";
    }
  }

  lemma {:induction false} RightBlanks(s: string, blank: char -> bool) returns (c: string)
    ensures s == TrimRight(s, blank) + c && Blank(c, blank)
  {
    if s != [] && blank(s[|s| - 1]) {
      c := RightBlanks(s[..|s| - 1], blank);
      assert s == TrimRight(s, blank) + (c + [s[|s| - 1]]);
      c := c + [s[|s| - 1]];
    } else {
      c := "";
    }
  }

  /** What stands between blanks and is not blank at its ends is what trimming leaves. */
  lemma {:induction false} TrimDropsBlanks(a: string, s: string, c: string, blank: char -> bool)
    requires Blank(a, blank) && Blank(c, blank) && Unpadded(s, blank)
    ensures Trim(a + s + c, blank) == s
    decreases |c|
  {
    assert a + s + c == a + (s + c);
    TrimLeftDrops(a, s + c, blank);
    assert TrimLeft(s + c, blank) == s + c;
    TrimRightDrops(s, c, blank);
  }

  lemma {:induction false} TrimRightDrops(s: string, c: string, blank: char -> bool)
    requires Blank(c, blank)
    ensures TrimRight(s + c, blank) == TrimRight(s, blank)
    decreases |c|
  {
    if c == "" {
      assert s + c == s;
    } else {
      assert (s + c)[..|s + c| - 1] == s + c[..|c| - 1];
      TrimRightDrops(s, c[..|c| - 1], blank);
    }
  }

  /** Lower case of the ASCII letters. */
  function Lower(s: string): string
  {
    if s == "" then "" else [if 'A' <= s[0] <= 'Z' then s[0] + ' ' else s[0]] + Lower(s[1..])
  }

  lemma {:induction false} LowerTwice(s: string)
    ensures Lower(Lower(s)) == Lower(s)
  {
    if s != "" {
      LowerTwice(s[1..]);
      assert Lower(s)[1..] == Lower(s[1..]);
    }
  }

  // ---------- find / split / join / replace ----------

  predicate OccursAt(s: string, p: string, i: int)
  {
    0 <= i && i + |p| <= |s| && s[i..i + |p|] == p
  }

  /** s.find(p, from): the leftmost occurrence at or after `from`. */
  function Find(s: string, p: string, from: nat): (r: Option<nat>)
    ensures r.Some? ==> from <= r.value && OccursAt(s, p, r.value)
    ensures r.Some? ==> forall j :: from <= j < r.value ==> !OccursAt(s, p, j)
    ensures r.None? ==> forall j :: from <= j ==> !OccursAt(s, p, j)
    decreases |s| - from
  {
    if from + |p| > |s| then None
    else if OccursAt(s, p, from) then Some(from)
    else if from == |s| then None
    else Find(s, p, from + 1)
  }

  function Split(s: string, sep: string): (parts: seq<string>)
    requires sep != []
    ensures parts != []
    decreases |s|
  {
    match Find(s, sep, 0)
    case None => [s]
    case Some(i) => [s[..i]] + Split(s[i + |sep|..], sep)
  }

  function Join(parts: seq<string>, sep: string): string
  {
    if parts == [] then ""
    else if |parts| == 1 then parts[0]
    else parts[0] + sep + Join(parts[1..], sep)
  }

  /** Concatenation of a sequence of sequences. */
  function Flatten<T>(parts: seq<seq<T>>): seq<T>
  {
    if parts == [] then [] else parts[0] + Flatten(parts[1..])
  }

  lemma {:induction false} FlattenConcat<T>(a: seq<seq<T>>, b: seq<seq<T>>)
    ensures Flatten(a + b) == Flatten(a) + Flatten(b)
  {
    if a == [] {
      assert a + b == b;
    } else {
      assert (a + b)[1..] == a[1..] + b;
      FlattenConcat(a[1..], b);
    }
  }

  lemma {:induction false} JoinSplit(s: string, sep: string)
    requires sep != []
    ensures Join(Split(s, sep), sep) == s
    decreases |s|
  {
    match Find(s, sep, 0)
    case None =>
    case Some(i) =>
      JoinSplit(s[i + |sep|..], sep);
      var rest := Split(s[i + |sep|..], sep);
      assert ([s[..i]] + rest)[1..] == rest;
      assert s == s[..i] + sep + s[i + |sep|..];
  }

  /** Finding a single character is membership. */
  lemma {:induction false} FindChar(s: string, c: char)
    ensures Find(s, [c], 0).None? <==> c !in s
    ensures Find(s, [c], 0).Some? ==>
              var i := Find(s, [c], 0).value;
              s[i] == c && c !in s[..i] && s == s[..i] + [c] + s[i + 1..]
  {
    match Find(s, [c], 0)
    case Some(i) =>
      assert s[i..i + 1][0] == s[i];
      forall j | 0 <= j < i ensures s[..i][j] != c {
        assert !OccursAt(s, [c], j);
        assert s[j..j + 1] == [s[j]];
      }
    case None =>
      if c in s {
        var k :| 0 <= k < |s| && s[k] == c;
        assert OccursAt(s, [c], k);
      }
  }

  /** A part without the separating character is cut exactly after it. */
  lemma {:induction false} CharSplittable(part: string, c: char)
    requires c !in part
    ensures Splittable(part, [c])
  {
    forall j | 0 <= j < |part| ensures !OccursAt(part + [c], [c], j) {
      assert (part + [c])[j..j + 1][0] == part[j];
    }
  }

  /** `part` followed by the separator is cut exactly after `part`. */
  ghost predicate Splittable(part: string, sep: string)
  {
    forall j :: 0 <= j < |part| ==> !OccursAt(part + sep, sep, j)
  }

  lemma {:induction false} SplittableHasNoSep(part: string, sep: string)
    requires sep != [] && Splittable(part, sep)
    ensures Find(part, sep, 0).None?
  {
    var f := Find(part, sep, 0);
    if f.Some? {
      assert (part + sep)[f.value..f.value + |sep|] == part[f.value..f.value + |sep|];
      assert OccursAt(part + sep, sep, f.value);
    }
  }

  /** Splitting one part off the front of a text. */
  lemma {:induction false} SplitFirst(part: string, sep: string, rest: string)
    requires sep != [] && Splittable(part, sep)
    ensures Split(part + sep + rest, sep) == [part] + Split(rest, sep)
  {
    var s := part + sep + rest;
    assert s[|part|..|part| + |sep|] == sep;
    assert OccursAt(s, sep, |part|);
    forall j | 0 <= j < |part| ensures !OccursAt(s, sep, j) {
      assert !OccursAt(part + sep, sep, j);
      assert s[j..j + |sep|] == (part + sep)[j..j + |sep|];
    }
    assert Find(s, sep, 0) == Some(|part|);
    assert s[..|part|] == part && s[|part| + |sep|..] == rest;
  }

  lemma {:induction false} SplitJoin(parts: seq<string>, sep: string)
    requires sep != [] && parts != []
    requires forall p :: p in parts ==> Splittable(p, sep)
    ensures Split(Join(parts, sep), sep) == parts
  {
    SplittableHasNoSep(parts[0], sep);
    if |parts| > 1 {
      SplitFirst(parts[0], sep, Join(parts[1..], sep));
      SplitJoin(parts[1..], sep);
    }
  }

  /** Splitting at a character distributes over a separator that is already there. */
  lemma {:induction false} SplitConcat(a: string, b: string, c: char)
    ensures Split(a + [c] + b, [c]) == Split(a, [c]) + Split(b, [c])
    decreases |a|
  {
    FindChar(a, c);
    match Find(a, [c], 0)
    case None =>
      CharSplittable(a, c);
      SplitFirst(a, [c], b);
    case Some(i) =>
      var head, tail := a[..i], a[i + 1..];
      SplitConcat(tail, b, c);
      CharSplittable(head, c);
      SplitConcatBehind(head, tail, b, c);
  }

  lemma {:induction false} SplitConcatBehind(head: string, tail: string, b: string, c: char)
    requires Splittable(head, [c]) && Split(tail + [c] + b, [c]) == Split(tail, [c]) + Split(b, [c])
    ensures Split(head + [c] + tail + [c] + b, [c]) == Split(head + [c] + tail, [c]) + Split(b, [c])
  {
    assert head + [c] + tail + [c] + b == head + [c] + (tail + [c] + b);
    SplitFirst(head, [c], tail + [c] + b);
    SplitFirst(head, [c], tail);
    RegroupParts([head], Split(tail, [c]), Split(b, [c]));
  }

  lemma {:induction false} RegroupParts(a: seq<string>, b: seq<string>, c: seq<string>)
    ensures a + (b + c) == (a + b) + c
  {
  }

  /** No part produced by Split contains the separator. */
  lemma {:induction false} SplitPartsAreClean(s: string, sep: string)
    requires sep != []
    ensures forall p :: p in Split(s, sep) ==> Find(p, sep, 0).None?
    decreases |s|
  {
    match Find(s, sep, 0)
    case None =>
    case Some(i) =>
      SplitPartsAreClean(s[i + |sep|..], sep);
      var f := Find(s[..i], sep, 0);
      if f.Some? {
        assert s[..i][f.value..f.value + |sep|] == s[f.value..f.value + |sep|];
        assert OccursAt(s, sep, f.value);
      }
  }

  lemma {:induction false} JoinAppend(parts: seq<string>, last: string, sep: string)
    requires parts != []
    ensures Join(parts + [last], sep) == Join(parts, sep) + sep + last
  {
    var all := parts + [last];
    assert all[1..] == parts[1..] + [last];
    if |parts| > 1 {
      JoinAppend(parts[1..], last, sep);
    }
  }

  lemma {:induction false} JoinConcat(a: seq<string>, b: seq<string>, sep: string)
    requires a != [] && b != []
    ensures Join(a + b, sep) == Join(a, sep) + sep + Join(b, sep)
  {
    assert (a + b)[1..] == a[1..] + b;
    if |a| > 1 {
      JoinConcat(a[1..], b, sep);
    }
  }

  /** s.replace(old, new): every leftmost, non-overlapping occurrence. */
  function Replace(s: string, old_: string, new_: string): string
    requires old_ != []
    decreases |s|
  {
    match Find(s, old_, 0)
    case None => s
    case Some(i) => s[..i] + new_ + Replace(s[i + |old_|..], old_, new_)
  }

  lemma {:induction false} ReplaceAbsent(s: string, old_: string, new_: string)
    requires old_ != [] && Find(s, old_, 0).None?
    ensures Replace(s, old_, new_) == s
  {
  }

  /** A pattern holding a character that the text lacks does not occur in it. */
  lemma {:induction false} AbsentCharacter(s: string, p: string, c: char)
    requires c in p && c !in s
    ensures Find(s, p, 0).None?
  {
    var k :| 0 <= k < |p| && p[k] == c;
    forall j: nat ensures !OccursAt(s, p, j) {
      OccursChar(s, p, j, k);
    }
  }

  lemma {:induction false} OccursChar(s: string, p: string, i: int, k: nat)
    requires k < |p|
    ensures OccursAt(s, p, i) ==> s[i + k] == p[k]
  {
    if OccursAt(s, p, i) {
      assert s[i..i + |p|][k] == s[i + k];
    }
  }

  /** Where an occurrence in a + [x] + b can be when x is not part of the pattern. */
  lemma {:induction false} OccursBesides(a: string, x: char, b: string, p: string, j: nat)
    requires p != [] && x !in p
    ensures OccursAt(a + [x] + b, p, j)
            <==> OccursAt(a, p, j) || (j > |a| && OccursAt(b, p, j - |a| - 1))
  {
    var s := a + [x] + b;
    if 0 <= j <= |a| < j + |p| {
      OccursChar(s, p, j, |a| - j);
    } else if j + |p| <= |a| {
      assert s[j..j + |p|] == a[j..j + |p|];
    } else if j > |a| && j + |p| <= |s| {
      assert s[j..j + |p|] == b[j - |a| - 1..j - |a| - 1 + |p|];
    }
  }

  /** Replacing distributes over a character that is not part of the pattern. */
  lemma {:induction false} ReplaceConcat(a: string, x: char, b: string, old_: string, new_: string)
    requires old_ != [] && x !in old_
    ensures Replace(a + [x] + b, old_, new_) == Replace(a, old_, new_) + [x] + Replace(b, old_, new_)
    decreases |a|
  {
    match Find(a, old_, 0)
    case Some(i) =>
      var head, tail := CutAtFirst(a, old_);
      ReplaceConcat(tail, x, b, old_, new_);
      ReplaceInFront(head, tail, x, b, old_, new_);
    case None =>
      ReplaceBehind(a, x, b, old_, new_);
  }

  /** Replacing the first occurrence. */
  lemma {:induction false} ReplaceFirst(head: string, tail: string, old_: string, new_: string)
    requires old_ != [] && Find(head + old_ + tail, old_, 0) == Some(|head|)
    ensures Replace(head + old_ + tail, old_, new_) == head + new_ + Replace(tail, old_, new_)
  {
    var s := head + old_ + tail;
    assert s[..|head|] == head && s[|head| + |old_|..] == tail;
  }

  /** A text is cut at its first occurrence. */
  lemma {:induction false} CutAtFirst(s: string, p: string) returns (head: string, tail: string)
    requires Find(s, p, 0).Some?
    ensures s == head + p + tail && Find(s, p, 0) == Some(|head|)
  {
    var i := Find(s, p, 0).value;
    head, tail := s[..i], s[i + |p|..];
  }

  lemma {:induction false} ReplaceInFront(head: string, tail: string, x: char, b: string, old_: string, new_: string)
    requires old_ != [] && x !in old_ && Find(head + old_ + tail, old_, 0) == Some(|head|)
    requires Replace(tail + [x] + b, old_, new_) == Replace(tail, old_, new_) + [x] + Replace(b, old_, new_)
    ensures Replace(head + old_ + tail + [x] + b, old_, new_)
         == Replace(head + old_ + tail, old_, new_) + [x] + Replace(b, old_, new_)
  {
    FirstOccurrenceInFront(head + old_ + tail, x, b, old_);
    assert head + old_ + tail + [x] + b == head + old_ + (tail + [x] + b);
    ReplaceFirst(head, tail + [x] + b, old_, new_);
    ReplaceFirst(head, tail, old_, new_);
    Regroup(head, new_, Replace(tail, old_, new_), [x], Replace(b, old_, new_));
  }

  lemma {:induction false} Regroup(a: string, b: string, c: string, d: string, e: string)
    ensures a + b + (c + d + e) == (a + b + c) + d + e
  {
  }

  lemma {:induction false} ReplaceBehind(a: string, x: char, b: string, old_: string, new_: string)
    requires old_ != [] && x !in old_ && Find(a, old_, 0).None?
    ensures Replace(a + [x] + b, old_, new_) == Replace(a, old_, new_) + [x] + Replace(b, old_, new_)
  {
    FirstOccurrenceBehind(a, x, b, old_);
    ReplaceAbsent(a, old_, new_);
    match Find(b, old_, 0)
    case None => ReplaceAbsent(b, old_, new_);
    case Some(i) =>
      var head, tail := CutAtFirst(b, old_);
      ReplaceBehindText(a + [x], head, tail, old_, new_);
  }

  lemma {:induction false} ReplaceBehindText(front: string, head: string, tail: string, old_: string, new_: string)
    requires old_ != [] && Find(head + old_ + tail, old_, 0) == Some(|head|)
    requires Find(front + (head + old_ + tail), old_, 0) == Some(|front| + |head|)
    ensures Replace(front + (head + old_ + tail), old_, new_) == front + Replace(head + old_ + tail, old_, new_)
  {
    RegroupFour(front, head, old_, tail);
    ReplaceFirst(front + head, tail, old_, new_);
    ReplaceFirst(head, tail, old_, new_);
    RegroupFour(front, head, new_, Replace(tail, old_, new_));
  }

  lemma {:induction false} RegroupFour(a: string, b: string, c: string, d: string)
    ensures a + b + c + d == a + (b + c + d)
  {
  }

  lemma {:induction false} FirstOccurrenceInFront(a: string, x: char, b: string, p: string)
    requires p != [] && x !in p && Find(a, p, 0).Some?
    ensures Find(a + [x] + b, p, 0) == Find(a, p, 0)
  {
    var i := Find(a, p, 0).value;
    OccursBesides(a, x, b, p, i);
    forall j | 0 <= j < i ensures !OccursAt(a + [x] + b, p, j) {
      OccursBesides(a, x, b, p, j);
    }
  }

  lemma {:induction false} FirstOccurrenceBehind(a: string, x: char, b: string, p: string)
    requires p != [] && x !in p && Find(a, p, 0).None?
    ensures Find(a + [x] + b, p, 0)
         == if Find(b, p, 0).None? then None else Some(|a| + 1 + Find(b, p, 0).value)
  {
    var s := a + [x] + b;
    forall j: nat
      ensures OccursAt(s, p, j) <==> j > |a| && OccursAt(b, p, j - |a| - 1)
    {
      OccursBesides(a, x, b, p, j);
    }
    if Find(b, p, 0).Some? {
      assert OccursAt(s, p, |a| + 1 + Find(b, p, 0).value);
    }
  }

  // ---------- integers in base ten ----------

  function Digit(d: nat): (c: char)
    requires d < 10
    ensures IsDigit(c) && DigitValue(c) == d
  {
    "0123456789"[d]
  }

  predicate IsDigit(c: char)
  {
    '0' <= c <= '9'
  }

  function DigitValue(c: char): nat
    requires IsDigit(c)
  {
    c as int - '0' as int
  }

  ghost predicate AllDigits(s: string)
  {
    forall i :: 0 <= i < |s| ==> IsDigit(s[i])
  }

  /** "%d" % n */
  function Dec(n: nat): (s: string)
    ensures s != [] && AllDigits(s)
    ensures Value(s) == n
  {
    if n < 10 then [Digit(n)] else Dec(n / 10) + [Digit(n % 10)]
  }

  /** int(s) for a string of digits; 0 when `s` holds anything else. */
  function Value(s: string): nat
  {
    if s == [] then 0
    else
      var c := s[|s| - 1];
      10 * Value(s[..|s| - 1]) + if IsDigit(c) then DigitValue(c) else 0
  }

  function Zeros(n: nat): (s: string)
    ensures |s| == n && AllDigits(s)
  {
    seq(n, _ => '0')
  }

  /** "%010d" % n */
  function Pad10(n: nat): string
  {
    var d := Dec(n);
    if |d| < 10 then Zeros(10 - |d|) + d else d
  }

  lemma {:induction false} ValueIgnoresZeros(k: nat, s: string)
    ensures Value(Zeros(k) + s) == Value(s)
    decreases k + |s|
  {
    var z := Zeros(k) + s;
    if s != [] {
      assert z[..|z| - 1] == Zeros(k) + s[..|s| - 1];
      ValueIgnoresZeros(k, s[..|s| - 1]);
    } else if k > 0 {
      assert z[..|z| - 1] == Zeros(k - 1) + s;
      ValueIgnoresZeros(k - 1, s);
    }
  }

  function Pow10(k: nat): nat
  {
    if k == 0 then 1 else 10 * Pow10(k - 1)
  }

  /** A number has at most k digits exactly when it is below 10^k. */
  lemma {:induction false} DecLength(n: nat, k: nat)
    requires k >= 1
    ensures |Dec(n)| <= k <==> n < Pow10(k)
  {
    if k == 1 {
      assert Pow10(1) == 10;
    } else if n >= 10 {
      DecLength(n / 10, k - 1);
    } else {
      Pow10Positive(k - 1);
    }
  }

  lemma {:induction false} Pow10Positive(k: nat)
    ensures Pow10(k) >= 1
  {
    if k > 0 {
      Pow10Positive(k - 1);
    }
  }

  const TEN_DIGITS := 10_000_000_000

  /** The padded form is ten digits wide exactly below 10^10, and always reads back. */
  lemma {:induction false} Pad10Shape(n: nat)
    ensures |Pad10(n)| == 10 <==> n < TEN_DIGITS
    ensures |Pad10(n)| >= 10 && AllDigits(Pad10(n)) && Value(Pad10(n)) == n
  {
    DecLength(n, 10);
    assert Pow10(10) == TEN_DIGITS by {
      assert Pow10(2) == 100 && Pow10(4) == 10_000 && Pow10(6) == 1_000_000 && Pow10(8) == 100_000_000;
    }
    if |Dec(n)| < 10 {
      ValueIgnoresZeros(10 - |Dec(n)|, Dec(n));
    }
  }

  /** The index after the run of digits that starts at `i`. */
  function DigitsEnd(s: string, i: nat): (j: nat)
    requires i <= |s|
    ensures i <= j <= |s|
    decreases |s| - i
  {
    if i < |s| && IsDigit(s[i]) then DigitsEnd(s, i + 1) else i
  }

  /** The index of the first digit of the run of digits that ends before `i`. */
  function DigitsStart(s: string, i: nat): (j: nat)
    requires i <= |s|
    ensures j <= i
  {
    if i > 0 && IsDigit(s[i - 1]) then DigitsStart(s, i - 1) else i
  }

  lemma {:induction false} DigitsEndOf(s: string, i: nat, d: string)
    requires i <= |s| && i + |d| <= |s| && s[i..i + |d|] == d && AllDigits(d)
    requires i + |d| == |s| || !IsDigit(s[i + |d|])
    ensures DigitsEnd(s, i) == i + |d|
    decreases |d|
  {
    if d != [] {
      assert s[i] == d[0];
      assert s[i + 1..i + |d|] == d[1..];
      DigitsEndOf(s, i + 1, d[1..]);
    }
  }

  lemma {:induction false} DigitsStartOf(s: string, i: nat, d: string)
    requires |d| <= i <= |s| && s[i - |d|..i] == d && AllDigits(d)
    requires i == |d| || !IsDigit(s[i - |d| - 1])
    ensures DigitsStart(s, i) == i - |d|
    decreases |d|
  {
    if d != [] {
      assert s[i - 1] == d[|d| - 1];
      assert s[i - |d|..i - 1] == d[..|d| - 1];
      DigitsStartOf(s, i - 1, d[..|d| - 1]);
    }
  }
}
