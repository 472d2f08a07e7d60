/** Facts about reading numbers and literals at known positions. The printed numbers and the
    fixed texts are variables here, which keeps the proofs small. */
module PdfScan {
  import opened Wrappers
  import opened Text

  /** The number whose digits start at i, and the position behind them. */
  function ReadNumber(s: string, i: nat): Option<(nat, nat)>
  {
    if i < |s| && IsDigit(s[i]) then Some(ReadDigits(s, i, 0)) else None
  }

  /** The digits from i on, behind digits whose value is `acc`. */
  function ReadDigits(s: string, i: nat, acc: nat): (nat, nat)
    decreases |s| - i
  {
    if i < |s| && IsDigit(s[i]) then ReadDigits(s, i + 1, 10 * acc + DigitValue(s[i])) else (acc, i)
  }

  /** The number whose digits end right before position e, and the position where they start. */
  function ReadNumberBefore(s: string, e: nat): Option<(nat, nat)>
  {
    if e > |s| || DigitsStart(s, e) == e then None
    else Some((Value(s[DigitsStart(s, e)..e]), DigitsStart(s, e)))
  }

  ghost predicate Number(digits: string)
  {
    digits != "" && AllDigits(digits)
  }

  ghost predicate NoDigitAt(s: string, i: int)
  {
    0 <= i < |s| ==> !IsDigit(s[i])
  }

  /** The text `p` stands at position i of `s`. */
  predicate At(s: string, p: string, i: int)
  {
    0 <= i && i + |p| <= |s| && forall k :: 0 <= k < |p| ==> s[i + k] == p[k]
  }

  lemma {:induction false} AtIsSlice(s: string, p: string, i: nat)
    ensures At(s, p, i) <==> i + |p| <= |s| && s[i..i + |p|] == p
  {
    if i + |p| <= |s| && s[i..i + |p|] == p {
      forall k | 0 <= k < |p| ensures s[i + k] == p[k] {
        assert s[i..i + |p|][k] == s[i + k];
      }
    }
  }

  /** A concatenation stands where its first half does, with the second half behind it. */
  lemma {:induction false} AtSplit(s: string, p: string, q: string, i: nat)
    requires At(s, p + q, i)
    ensures At(s, p, i) && At(s, q, i + |p|)
  {
    forall k | 0 <= k < |p| ensures s[i + k] == p[k] {
      assert (p + q)[k] == p[k];
    }
    forall k | 0 <= k < |q| ensures s[i + |p| + k] == q[k] {
      assert (p + q)[|p| + k] == q[k];
    }
  }

  /** Text in front moves positions; text behind does not matter. */
  lemma {:induction false} AtShift(pre: string, s: string, post: string, p: string, i: nat)
    requires At(s, p, i)
    ensures At(pre + s + post, p, |pre| + i)
  {
  }

  lemma {:induction false} AtSelf(p: string)
    ensures At(p, p, 0)
  {
    AtIsSlice(p, p, 0);
  }

  lemma {:induction false} ReadDigitsAt(s: string, i: nat, done: string, digits: string)
    requires At(s, digits, i) && AllDigits(digits) && NoDigitAt(s, i + |digits|)
    ensures ReadDigits(s, i, Value(done)) == (Value(done + digits), i + |digits|)
    decreases |digits|
  {
    if digits == "" {
      assert done + digits == done;
    } else {
      assert s[i + 0] == digits[0];
      forall k | 0 <= k < |digits| - 1 ensures s[i + 1 + k] == digits[1..][k] {
        assert s[i + (k + 1)] == digits[k + 1];
      }
      var done' := done + [digits[0]];
      assert done'[..|done|] == done;
      assert done' + digits[1..] == done + digits;
      ReadDigitsAt(s, i + 1, done', digits[1..]);
    }
  }

  lemma {:induction false} ReadNumberAt(s: string, i: nat, digits: string)
    requires At(s, digits, i) && Number(digits) && NoDigitAt(s, i + |digits|)
    ensures ReadNumber(s, i) == Some((Value(digits), i + |digits|))
  {
    assert s[i + 0] == digits[0];
    ReadDigitsAt(s, i, "", digits);
    assert "" + digits == digits;
  }

  lemma {:induction false} ReadNumberBeforeAt(s: string, i: nat, e: nat, digits: string)
    requires e == i + |digits| && At(s, digits, i) && Number(digits) && NoDigitAt(s, i - 1)
    ensures ReadNumberBefore(s, e) == Some((Value(digits), i))
  {
    AtIsSlice(s, digits, i);
    StartOfNumber(s, i, e, digits);
    assert s[i..e] == digits;
  }

  lemma {:induction false} StartOfNumber(s: string, i: nat, e: nat, digits: string)
    requires e == i + |digits| && e <= |s| && s[i..e] == digits && AllDigits(digits) && NoDigitAt(s, i - 1)
    ensures DigitsStart(s, e) == i
  {
    DigitsStartOf(s, e, digits);
  }

  // ---------- texts made of parts ----------

  /** The position of part k. */
  function Start(parts: seq<string>, k: nat): (n: nat)
    requires k <= |parts|
  {
    if k == 0 then 0 else |parts[0]| + Start(parts[1..], k - 1)
  }

  /** Every part stands where the parts before it end. */
  lemma {:induction false} PartIsAt(parts: seq<string>, k: nat)
    requires k < |parts|
    ensures At(Flatten(parts), parts[k], Start(parts, k))
    ensures Start(parts, k + 1) == Start(parts, k) + |parts[k]|
    decreases k
  {
    var rest := Flatten(parts[1..]);
    if k == 0 {
      AtSelf(parts[0]);
      AtShift("", parts[0], rest, parts[0], 0);
      assert "" + parts[0] + rest == Flatten(parts);
    } else {
      PartIsAt(parts[1..], k - 1);
      AtShift(parts[0], rest, "", parts[k], Start(parts[1..], k - 1));
      assert parts[0] + rest + "" == Flatten(parts);
    }
  }

  lemma {:induction false} StartOfEnd(parts: seq<string>)
    ensures Start(parts, |parts|) == |Flatten(parts)|
  {
    if parts != [] {
      StartOfEnd(parts[1..]);
    }
  }
}
