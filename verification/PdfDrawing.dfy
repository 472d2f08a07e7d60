/** What is drawn on a page, and how it is printed into the page's content stream. Coordinates and
    sizes are whole points, shades of gray are hundredths. */
module PdfDrawing {
  import opened Wrappers
  import opened Text
  import opened PdfString

  datatype Op =
    | TextOp(x: int, y: int, size: nat, text: string, bold: bool, gray: nat)
    | ImageOp(index: nat, x: int, y: int, w: int, h: int)
    | RuleOp(x1: int, y1: int, x2: int, y2: int, gray: nat)

  /** "%.1f" of a whole number. */
  function Tenths(v: int): string
  {
    if v < 0 then "-" + Dec(-v) + ".0" else Dec(v) + ".0"
  }

  /** The shortest form of n hundredths. */
  function Hundredths(n: nat): string
  {
    var tenths := Dec(n / 100) + "." + [Digit(n / 10 % 10)];
    if n % 10 == 0 then tenths else tenths + [Digit(n % 10)]
  }

  /** Everything in front of the text itself: colour, font and size, position. */
  function LeadTokens(x: int, y: int, size: nat, bold: bool, gray: nat): seq<string>
  {
    var g := Hundredths(gray);
    ["BT", g, g, g, "rg", if bold then "/F2" else "/F1", Dec(size), "Tf", Tenths(x), Tenths(y), "Td"]
  }

  function TextLead(x: int, y: int, size: nat, bold: bool, gray: nat): string
  {
    Join(LeadTokens(x, y, size, bold, gray), " ") + " "
  }

  const TEXT_END := " Tj ET"

  /** The operands and operators of a picture or a rule. */
  function Tokens(op: Op): seq<string>
    requires !op.TextOp?
  {
    match op
    case ImageOp(index, x, y, w, h) =>
      ["q", Tenths(w), "0", "0", Tenths(h), Tenths(x), Tenths(y), "cm", "/Im" + Dec(index), "Do", "Q"]
    case RuleOp(x1, y1, x2, y2, gray) =>
      var g := Hundredths(gray);
      [g, g, g, "RG", "0.7", "w", Tenths(x1), Tenths(y1), "m", Tenths(x2), Tenths(y2), "l", "S"]
  }

  function Printed(op: Op): string
  {
    if op.TextOp?
    then TextLead(op.x, op.y, op.size, op.bold, op.gray) + "(" + Escape(WinBytes(op.text)) + ")" + TEXT_END
    else Join(Tokens(op), " ")
  }

  /** Pages with an operation added to the last one. */
  function OneMoreOp(pages: seq<seq<Op>>, op: Op): (more: seq<seq<Op>>)
    requires pages != []
    ensures |more| == |pages|
  {
    pages[..|pages| - 1] + [pages[|pages| - 1] + [op]]
  }

  function PrintedAll(ops: seq<Op>): seq<string>
  {
    if ops == [] then [] else [Printed(ops[0])] + PrintedAll(ops[1..])
  }

  lemma {:induction false} PrintedAllAppend(ops: seq<Op>, op: Op)
    ensures PrintedAll(ops + [op]) == PrintedAll(ops) + [Printed(op)]
  {
    if ops == [] {
      assert ops + [op] == [op];
    } else {
      assert (ops + [op])[1..] == ops[1..] + [op];
      PrintedAllAppend(ops[1..], op);
    }
  }

  // ---------- reading the texts of a content stream ----------

  /** The texts shown by the given lines of a content stream. */
  function ShownBy(lines: seq<string>): seq<string>
  {
    if lines == [] then []
    else
      var rest := ShownBy(lines[1..]);
      match Find(lines[0], "(", 0)
      case None => rest
      case Some(i) =>
        match ReadLiteral(lines[0], i + 1, 0)
        case None => rest
        case Some((text, _)) => [text] + rest
  }

  function ShownTexts(content: string): seq<string>
  {
    ShownBy(Split(content, "\n"))
  }

  /** The texts drawn by some operations, in order. */
  function DrawnTexts(ops: seq<Op>): seq<string>
  {
    if ops == [] then []
    else (if ops[0].TextOp? then [ops[0].text] else []) + DrawnTexts(ops[1..])
  }

  function WinAll(texts: seq<string>): seq<string>
  {
    if texts == [] then [] else [WinBytes(texts[0])] + WinAll(texts[1..])
  }

  /** The same texts as a reader of literal strings gets them. */
  function ReadAll(texts: seq<string>): seq<string>
  {
    if texts == [] then [] else [NormalizeEol(WinBytes(texts[0]))] + ReadAll(texts[1..])
  }

  /** A text that stays on one line of the content stream. */
  predicate OneLine(text: string)
  {
    '\n' !in text
  }

  ghost predicate NoReturns(texts: seq<string>)
  {
    forall i :: 0 <= i < |texts| ==> '\r' !in texts[i]
  }

  /** The texts as read are the texts as drawn exactly when none of them holds a carriage return. */
  lemma {:induction false} ReadAllExactly(texts: seq<string>)
    ensures ReadAll(texts) == WinAll(texts) <==> NoReturns(texts)
  {
    if texts != [] {
      OnlyReturnsAreLost(texts[0]);
      ReadAllExactly(texts[1..]);
      var a, b := ReadAll(texts[1..]), WinAll(texts[1..]);
      ConsEqual(NormalizeEol(WinBytes(texts[0])), WinBytes(texts[0]), a, b);
      assert NoReturns(texts) <==> '\r' !in texts[0] && NoReturns(texts[1..]);
    }
  }

  lemma {:induction false} ConsEqual(x: string, y: string, a: seq<string>, b: seq<string>)
    ensures [x] + a == [y] + b <==> x == y && a == b
  {
    if [x] + a == [y] + b {
      assert ([x] + a)[0] == x && ([x] + a)[1..] == a && ([y] + b)[1..] == b;
    }
  }

  /** A character that is in no number and in no operator but the end of a text. */
  ghost predicate Foreign(c: char)
  {
    c == '(' || c == '\n' || c == 'E' || c == ' '
  }

  ghost predicate AllLack(tokens: seq<string>, c: char)
  {
    forall k :: 0 <= k < |tokens| ==> c !in tokens[k]
  }

  lemma {:induction false} DecLacks(n: nat, c: char)
    requires Foreign(c)
    ensures c !in Dec(n)
  {
  }

  lemma {:induction false} TenthsLack(v: int, c: char)
    requires Foreign(c)
    ensures c !in Tenths(v)
  {
    DecLacks(if v < 0 then -v else v, c);
  }

  lemma {:induction false} HundredthsLack(n: nat, c: char)
    requires Foreign(c)
    ensures c !in Hundredths(n)
  {
    DecLacks(n / 100, c);
  }

  lemma {:induction false} JoinLacks(tokens: seq<string>, c: char)
    requires c != ' ' && AllLack(tokens, c)
    ensures c !in Join(tokens, " ")
  {
    if |tokens| > 1 {
      JoinLacks(tokens[1..], c);
    }
  }

  lemma {:induction false} LeadTokensLack(x: int, y: int, size: nat, bold: bool, gray: nat, c: char)
    requires Foreign(c)
    ensures AllLack(LeadTokens(x, y, size, bold, gray), c)
  {
    HundredthsLack(gray, c);
    DecLacks(size, c);
    TenthsLack(x, c);
    TenthsLack(y, c);
    LeadWordsLack(Hundredths(gray), if bold then "/F2" else "/F1", Dec(size), Tenths(x), Tenths(y), c);
  }

  lemma {:induction false} LeadWordsLack(g: string, font: string, size: string, x: string, y: string, c: char)
    requires Foreign(c) && c !in g && c !in font && c !in size && c !in x && c !in y
    ensures AllLack(["BT", g, g, g, "rg", font, size, "Tf", x, y, "Td"], c)
  {
    assert c !in "BT" && c !in "rg" && c !in "Tf" && c !in "Td";
  }

  lemma {:induction false} TokensLack(op: Op, c: char)
    requires !op.TextOp? && Foreign(c)
    ensures AllLack(Tokens(op), c)
  {
    match op
    case ImageOp(index, x, y, w, h) =>
      TenthsLack(x, c);
      TenthsLack(y, c);
      TenthsLack(w, c);
      TenthsLack(h, c);
      DecLacks(index, c);
      ImageTokensLack(Tenths(w), Tenths(h), Tenths(x), Tenths(y), Dec(index), c);
    case RuleOp(x1, y1, x2, y2, gray) =>
      HundredthsLack(gray, c);
      TenthsLack(x1, c);
      TenthsLack(y1, c);
      TenthsLack(x2, c);
      TenthsLack(y2, c);
      RuleTokensLack(Hundredths(gray), Tenths(x1), Tenths(y1), Tenths(x2), Tenths(y2), c);
  }

  lemma {:induction false} ImageTokensLack(w: string, h: string, x: string, y: string, k: string, c: char)
    requires Foreign(c) && c !in w && c !in h && c !in x && c !in y && c !in k
    ensures AllLack(["q", w, "0", "0", h, x, y, "cm", "/Im" + k, "Do", "Q"], c)
  {
    assert c !in "/Im" && c !in "/Im" + k;
    assert c !in "q" && c !in "0" && c !in "cm" && c !in "Do" && c !in "Q";
  }

  lemma {:induction false} RuleTokensLack(g: string, x1: string, y1: string, x2: string, y2: string, c: char)
    requires Foreign(c) && c !in g && c !in x1 && c !in y1 && c !in x2 && c !in y2
    ensures AllLack([g, g, g, "RG", "0.7", "w", x1, y1, "m", x2, y2, "l", "S"], c)
  {
    assert c !in "RG" && c !in "0.7" && c !in "w" && c !in "m" && c !in "l" && c !in "S";
  }

  lemma {:induction false} LeadLacks(x: int, y: int, size: nat, bold: bool, gray: nat, c: char)
    requires Foreign(c) && c != ' '
    ensures c !in TextLead(x, y, size, bold, gray)
  {
    LeadTokensLack(x, y, size, bold, gray, c);
    JoinLacks(LeadTokens(x, y, size, bold, gray), c);
  }

  lemma {:induction false} OtherOpsLack(op: Op, c: char)
    requires !op.TextOp? && Foreign(c) && c != ' '
    ensures c !in Printed(op)
  {
    TokensLack(op, c);
    JoinLacks(Tokens(op), c);
  }

  lemma {:induction false} EscapeKeepsLine(b: string)
    requires '\n' !in b
    ensures '\n' !in EscapeBytes(b)
  {
    if b != "" {
      EscapeKeepsLine(b[1..]);
    }
  }

  lemma {:induction false} WinBytesKeepLine(text: string)
    requires '\n' !in text
    ensures '\n' !in WinBytes(text)
  {
    if '\n' in WinBytes(text) {
      var k :| 0 <= k < |text| && WinBytes(text)[k] == '\n';
      WinByteIsAscii(text[k]);
    }
  }

  /** A printed operation is one line of the content stream. */
  lemma {:induction false} PrintedIsOneLine(op: Op)
    requires op.TextOp? ==> '\n' !in op.text
    ensures '\n' !in Printed(op)
  {
    if op.TextOp? {
      LeadLacks(op.x, op.y, op.size, op.bold, op.gray, '\n');
      WinBytesKeepLine(op.text);
      EscapeIsBytewise(WinBytes(op.text));
      EscapeKeepsLine(WinBytes(op.text));
    } else {
      OtherOpsLack(op, '\n');
    }
  }

  /** The text of a printed operation is read. */
  lemma {:induction false} PrintedShows(op: Op)
    ensures ShownBy([Printed(op)]) == ReadAll(DrawnTexts([op]))
  {
    DrawnOne(op);
    if op.TextOp? {
      LeadLacks(op.x, op.y, op.size, op.bold, op.gray, '(');
      TextShows(TextLead(op.x, op.y, op.size, op.bold, op.gray), op.text, TEXT_END);
    } else {
      OtherOpsLack(op, '(');
      NothingShown(Printed(op));
    }
  }

  lemma {:induction false} DrawnOne(op: Op)
    ensures ReadAll(DrawnTexts([op])) == if op.TextOp? then [NormalizeEol(WinBytes(op.text))] else []
  {
    assert [op][1..] == [];
    if op.TextOp? {
      assert DrawnTexts([op]) == [op.text] && [op.text][1..] == [];
    }
  }

  lemma {:induction false} TextShows(lead: string, text: string, end: string)
    requires '(' !in lead
    ensures ShownBy([lead + "(" + Escape(WinBytes(text)) + ")" + end]) == [NormalizeEol(WinBytes(text))]
  {
    var line := lead + "(" + Escape(WinBytes(text)) + ")" + end;
    ParenthesisAt(lead, Escape(WinBytes(text)), end);
    TextReads(lead + "(", text, end);
    assert [line][1..] == [] && ShownBy([]) == [];
  }

  lemma {:induction false} NothingShown(line: string)
    requires '(' !in line
    ensures ShownBy([line]) == []
  {
    FindChar(line, '(');
    assert [line][1..] == [] && ShownBy([]) == [];
  }

  lemma {:induction false} ParenthesisAt(lead: string, text: string, end: string)
    requires '(' !in lead
    ensures Find(lead + "(" + text + ")" + end, "(", 0) == Some(|lead|)
  {
    var s := lead + "(" + text + ")" + end;
    assert s[|lead|..|lead| + 1] == "(";
    assert OccursAt(s, "(", |lead|);
    forall j | 0 <= j < |lead| ensures !OccursAt(s, "(", j) {
      OccursChar(s, "(", j, 0);
    }
  }

  lemma {:induction false} ShownByConcat(a: seq<string>, b: seq<string>)
    ensures ShownBy(a + b) == ShownBy(a) + ShownBy(b)
  {
    if a == [] {
      assert a + b == b;
    } else {
      assert (a + b)[1..] == a[1..] + b;
      ShownByConcat(a[1..], b);
    }
  }

  lemma {:induction false} DrawnConcat(a: seq<Op>, b: seq<Op>)
    ensures DrawnTexts(a + b) == DrawnTexts(a) + DrawnTexts(b)
  {
    if a == [] {
      assert a + b == b;
    } else {
      assert (a + b)[1..] == a[1..] + b;
      DrawnConcat(a[1..], b);
    }
  }

  lemma {:induction false} ReadAllConcat(a: seq<string>, b: seq<string>)
    ensures ReadAll(a + b) == ReadAll(a) + ReadAll(b)
  {
    if a == [] {
      assert a + b == b;
    } else {
      assert (a + b)[1..] == a[1..] + b;
      ReadAllConcat(a[1..], b);
    }
  }

  ghost predicate AllOneLine(ops: seq<Op>)
  {
    forall op :: op in ops && op.TextOp? ==> OneLine(op.text)
  }

  lemma {:induction false} PrintedAllShow(ops: seq<Op>)
    requires AllOneLine(ops)
    ensures ShownBy(PrintedAll(ops)) == ReadAll(DrawnTexts(ops))
    ensures forall line :: line in PrintedAll(ops) ==> '\n' !in line
  {
    if ops != [] {
      var op, rest := ops[0], ops[1..];
      assert op in ops;
      PrintedAllShow(rest);
      PrintedShows(op);
      PrintedIsOneLine(op);
      ShownByConcat([Printed(op)], PrintedAll(rest));
      FirstDrawn(ops);
    }
  }

  lemma {:induction false} FirstDrawn(ops: seq<Op>)
    requires ops != []
    ensures ReadAll(DrawnTexts(ops)) == ReadAll(DrawnTexts([ops[0]])) + ReadAll(DrawnTexts(ops[1..]))
  {
    assert ops == [ops[0]] + ops[1..];
    DrawnConcat([ops[0]], ops[1..]);
    ReadAllConcat(DrawnTexts([ops[0]]), DrawnTexts(ops[1..]));
  }

  /** The texts of a page are read from its content stream in drawing order, and are what was drawn
      exactly when none of them holds a carriage return. */
  lemma {:induction false} ContentShowsTexts(ops: seq<Op>)
    requires AllOneLine(ops)
    ensures ShownTexts(Join(PrintedAll(ops), "\n")) == ReadAll(DrawnTexts(ops))
    ensures ShownTexts(Join(PrintedAll(ops), "\n")) == WinAll(DrawnTexts(ops)) <==> NoReturns(DrawnTexts(ops))
  {
    ReadAllExactly(DrawnTexts(ops));
    PrintedAllShow(ops);
    var lines := PrintedAll(ops);
    if ops == [] {
      assert Find("", "\n", 0).None?;
      assert Split("", "\n") == [""];
      FindChar("", '(');
      assert ShownBy([""]) == ShownBy([]);
    } else {
      forall line | line in lines ensures Splittable(line, "\n") {
        CharSplittable(line, '\n');
      }
      SplitJoin(lines, "\n");
    }
  }
}
