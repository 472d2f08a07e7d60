/** Which drawn texts bring the parent placeholder into a content stream. The placeholder is a
    variable `p` until the end, which keeps its letters out of the proofs. */
module PdfPlaceholder {
  import opened Text
  import opened PdfString
  import opened PdfFormat
  import opened PdfDrawing

  ghost predicate Free(s: string, p: string)
  {
    Find(s, p, 0).None?
  }

  /** A pattern does not reach across a character it does not hold. */
  lemma {:induction false} FreeAround(a: string, x: char, b: string, p: string)
    requires p != "" && x !in p
    ensures Free(a + [x] + b, p) <==> Free(a, p) && Free(b, p)
  {
    if Free(a, p) {
      FirstOccurrenceBehind(a, x, b, p);
    } else {
      FirstOccurrenceInFront(a, x, b, p);
    }
  }

  predicate Special(c: char)
  {
    c == '\\' || c == '(' || c == ')'
  }

  /** A pattern of ASCII characters that are neither escaped, nor line feeds, nor question marks. */
  ghost predicate Ordinary(p: string)
  {
    p != "" && forall k :: 0 <= k < |p| ==> p[k] < '\U{80}' && p[k] != '?' && p[k] != '\n' && !Special(p[k])
  }

  /** The index of the first byte that is escaped. */
  function FirstSpecial(b: string): (k: nat)
    ensures k <= |b| && (k < |b| ==> Special(b[k])) && forall i :: 0 <= i < k ==> !Special(b[i])
  {
    if b == "" || Special(b[0]) then 0 else 1 + FirstSpecial(b[1..])
  }

  lemma {:induction false} EscapePlain(b: string)
    requires forall i :: 0 <= i < |b| ==> !Special(b[i])
    ensures EscapeBytes(b) == b
  {
    if b != "" {
      EscapePlain(b[1..]);
    }
  }

  lemma {:induction false} EscapeAround(front: string, c: char, rest: string)
    requires Special(c) && forall i :: 0 <= i < |front| ==> !Special(front[i])
    ensures EscapeBytes(front + [c] + rest) == front + ['\\'] + ("" + [c] + EscapeBytes(rest))
  {
    EscapeConcat(front + [c], rest);
    EscapeConcat(front, [c]);
    EscapePlain(front);
    assert [c][1..] == "" && EscapeBytes([c]) == ['\\', c];
    assert ['\\', c] == ['\\'] + [c];
    RegroupEscape(front, ['\\'], [c], EscapeBytes(rest));
  }

  lemma {:induction false} RegroupEscape(a: string, b: string, c: string, d: string)
    ensures (a + (b + c)) + d == a + b + ("" + c + d)
  {
  }

  lemma {:induction false} EscapeConcat(a: string, b: string)
    ensures EscapeBytes(a + b) == EscapeBytes(a) + EscapeBytes(b)
  {
    if a == "" {
      assert a + b == b;
    } else {
      assert (a + b)[1..] == a[1..] + b;
      EscapeConcat(a[1..], b);
    }
  }

  /** Escaping neither makes nor breaks an occurrence. */
  lemma {:induction false} FreeEscaped(b: string, p: string)
    requires Ordinary(p)
    ensures Free(EscapeBytes(b), p) <==> Free(b, p)
    decreases |b|
  {
    var k := FirstSpecial(b);
    if k == |b| {
      EscapePlain(b);
    } else {
      assert b == b[..k] + [b[k]] + b[k + 1..];
      FreeEscaped(b[k + 1..], p);
      FreeEscapedAround(b[..k], b[k], b[k + 1..], p);
    }
  }

  lemma {:induction false} FreeEscapedAround(front: string, c: char, rest: string, p: string)
    requires Ordinary(p) && Special(c) && forall i :: 0 <= i < |front| ==> !Special(front[i])
    requires Free(EscapeBytes(rest), p) <==> Free(rest, p)
    ensures Free(EscapeBytes(front + [c] + rest), p) <==> Free(front + [c] + rest, p)
  {
    EscapeAround(front, c, rest);
    FreeAround(front, c, rest, p);
    FreeAround("", c, EscapeBytes(rest), p);
    FreeAround(front, '\\', "" + [c] + EscapeBytes(rest), p);
  }

  /** Encoding neither makes nor breaks an occurrence. */
  lemma {:induction false} FreeEncoded(text: string, p: string)
    requires Ordinary(p)
    ensures Free(WinBytes(text), p) <==> Free(text, p)
  {
    forall j: nat | j + |p| <= |text| ensures OccursAt(WinBytes(text), p, j) <==> OccursAt(text, p, j) {
      SameOccurrence(text, p, j);
    }
  }

  lemma {:induction false} SameOccurrence(text: string, p: string, j: nat)
    requires Ordinary(p) && j + |p| <= |text|
    ensures OccursAt(WinBytes(text), p, j) <==> OccursAt(text, p, j)
  {
    var b := WinBytes(text);
    forall k | 0 <= k < |p| ensures b[j..j + |p|][k] == p[k] <==> text[j..j + |p|][k] == p[k] {
      WinByteIsAscii(text[j + k]);
    }
    assert b[j..j + |p|] == p <==> text[j..j + |p|] == p;
  }

  /** A printed text, between fixed texts without the pattern. */
  lemma {:induction false} FreeShown(lead: string, text: string, end: string, p: string)
    requires Ordinary(p) && Free(lead, p) && Free(end, p)
    ensures Free(lead + "(" + Escape(WinBytes(text)) + ")" + end, p) <==> Free(text, p)
  {
    var shown := Escape(WinBytes(text));
    EscapeIsBytewise(WinBytes(text));
    FreeEscaped(WinBytes(text), p);
    FreeEncoded(text, p);
    FreeAround(lead + "(" + shown, ')', end, p);
    FreeAround(lead, '(', shown, p);
  }

  lemma {:induction false} ParentIsOrdinary()
    ensures Ordinary(PARENT) && 'E' in PARENT && Free(TEXT_END, PARENT)
  {
    assert PARENT[11] == 'E';
  }

  /** A printed operation holds the placeholder exactly when it shows a text that does. */
  lemma {:induction false} FreePrinted(op: Op, p: string)
    requires Ordinary(p) && 'E' in p && Free(TEXT_END, p)
    ensures Free(Printed(op), p) <==> op.TextOp? ==> Free(op.text, p)
  {
    if op.TextOp? {
      var lead := TextLead(op.x, op.y, op.size, op.bold, op.gray);
      LeadLacks(op.x, op.y, op.size, op.bold, op.gray, 'E');
      AbsentCharacter(lead, p, 'E');
      FreeShown(lead, op.text, TEXT_END, p);
    } else {
      OtherOpsLack(op, 'E');
      AbsentCharacter(Printed(op), p, 'E');
    }
  }

  // ---------- pages ----------

  ghost predicate AllTextsFree(texts: seq<string>, p: string)
  {
    texts != [] ==> Free(texts[0], p) && AllTextsFree(texts[1..], p)
  }

  lemma {:induction false} AllTextsFreeConcat(a: seq<string>, b: seq<string>, p: string)
    ensures AllTextsFree(a + b, p) <==> AllTextsFree(a, p) && AllTextsFree(b, p)
  {
    if a == [] {
      assert a + b == b;
    } else {
      assert (a + b)[1..] == a[1..] + b;
      AllTextsFreeConcat(a[1..], b, p);
    }
  }

  lemma {:induction false} OneOpFree(op: Op, p: string)
    ensures AllTextsFree(DrawnTexts([op]), p) <==> op.TextOp? ==> Free(op.text, p)
  {
    assert [op][1..] == [] && DrawnTexts([]) == [];
    if op.TextOp? {
      assert [op.text][1..] == [] && DrawnTexts([op]) == [op.text];
    }
  }

  /** A page's content stream holds the placeholder exactly when one of its texts does. */
  lemma {:induction false} FreePage(ops: seq<Op>, p: string)
    requires Ordinary(p) && 'E' in p && Free(TEXT_END, p)
    ensures Free(Join(PrintedAll(ops), "\n"), p) <==> AllTextsFree(DrawnTexts(ops), p)
  {
    if ops == [] {
      AbsentCharacter("", p, 'E');
    } else {
      FreePrinted(ops[0], p);
      FreePage(ops[1..], p);
      FreeFirstText(ops, p);
      FreeJoin(Printed(ops[0]), PrintedAll(ops[1..]), p);
    }
  }

  lemma {:induction false} FreeFirstText(ops: seq<Op>, p: string)
    requires ops != []
    ensures AllTextsFree(DrawnTexts(ops), p)
            <==> (ops[0].TextOp? ==> Free(ops[0].text, p)) && AllTextsFree(DrawnTexts(ops[1..]), p)
  {
    OneOpFree(ops[0], p);
    assert [ops[0]] + ops[1..] == ops;
    DrawnConcat([ops[0]], ops[1..]);
    AllTextsFreeConcat(DrawnTexts([ops[0]]), DrawnTexts(ops[1..]), p);
  }

  lemma {:induction false} FreeJoin(first: string, rest: seq<string>, p: string)
    requires Ordinary(p) && 'E' in p
    ensures Free(Join([first] + rest, "\n"), p) <==> Free(first, p) && Free(Join(rest, "\n"), p)
  {
    assert ([first] + rest)[1..] == rest;
    if rest != [] {
      FreeAround(first, '\n', Join(rest, "\n"), p);
    } else {
      AbsentCharacter("", p, 'E');
    }
  }
}
