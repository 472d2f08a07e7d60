/** Reading a content stream back to what it draws: operands and operators as in sections 8.3, 8.5, 8.8, 8.9
    and 9.4 of ISO 32000-1, one operation a line. Numbers are read in hundredths. */
module PdfGraphics {
  import opened Wrappers
  import opened Text
  import opened PdfString
  import opened PdfDrawing

  // ---------- numbers ----------

  predicate Digits(s: string)
  {
    s != "" && forall i :: 0 <= i < |s| ==> IsDigit(s[i])
  }

  /** A number without a sign and with at most two decimals, in hundredths. */
  function Unsigned(t: string): Option<int>
  {
    match Find(t, ".", 0)
    case None => if Digits(t) then Some(100 * Value(t)) else None
    case Some(i) =>
      var whole, decimals := t[..i], t[i + 1..];
      if !Digits(whole) || !Digits(decimals) || |decimals| > 2 then None
      else Some(100 * Value(whole) + (if |decimals| == 1 then 10 else 1) * Value(decimals))
  }

  function ReadFixed(t: string): Option<int>
  {
    if t != "" && t[0] == '-' then
      var n :- Unsigned(t[1..]);
      Some(-n)
    else
      var n :- Unsigned(t);
      Some(n)
  }

  // ---------- operations ----------

  /** What a line of a content stream draws, with names that the page's resources resolve. */
  datatype Mark =
    | TextMark(x: int, y: int, size: int, shade: (int, int, int), font: string, bytes: string)
    | ImageMark(x: int, y: int, w: int, h: int, name: string)
    | RuleMark(x1: int, y1: int, x2: int, y2: int, width: int, shade: (int, int, int))

  function ReadShade(a: string, b: string, c: string): Option<(int, int, int)>
  {
    var r :- ReadFixed(a);
    var g :- ReadFixed(b);
    var b :- ReadFixed(c);
    Some((r, g, b))
  }

  /** w 0 0 h x y cm /Name Do: the unit square is scaled to w by h and moved to x, y. */
  function ReadImage(t: seq<string>): Option<Mark>
    requires |t| == 11
  {
    var w :- ReadFixed(t[1]);
    var h :- ReadFixed(t[4]);
    var x :- ReadFixed(t[5]);
    var y :- ReadFixed(t[6]);
    Some(ImageMark(x, y, w, h, t[8]))
  }

  /** r g b RG width w x y m x y l S: a line is stroked. */
  function ReadRule(t: seq<string>): Option<Mark>
    requires |t| == 13
  {
    var shade :- ReadShade(t[0], t[1], t[2]);
    var width :- ReadFixed(t[4]);
    var x1 :- ReadFixed(t[6]);
    var y1 :- ReadFixed(t[7]);
    var x2 :- ReadFixed(t[9]);
    var y2 :- ReadFixed(t[10]);
    Some(RuleMark(x1, y1, x2, y2, width, shade))
  }

  function ReadOther(t: seq<string>): Option<Mark>
  {
    if |t| == 11 && t[0] == "q" && t[2] == t[3] == "0" && t[7] == "cm" && t[9] == "Do" && t[10] == "Q"
    then ReadImage(t)
    else if |t| == 13 && t[3] == "RG" && t[5] == "w" && t[8] == "m" && t[11] == "l" && t[12] == "S"
    then ReadRule(t)
    else None
  }

  /** BT r g b rg /Font size Tf x y Td: where and how the string behind it is shown. */
  function ReadText(t: seq<string>, bytes: string): Option<Mark>
  {
    if |t| != 12 || t[0] != "BT" || t[4] != "rg" || t[7] != "Tf" || t[10] != "Td" || t[11] != "" then None
    else
      var shade :- ReadShade(t[1], t[2], t[3]);
      var size :- ReadFixed(t[6]);
      var x :- ReadFixed(t[8]);
      var y :- ReadFixed(t[9]);
      Some(TextMark(x, y, size, shade, t[5], bytes))
  }

  function ReadMark(line: string): Option<Mark>
  {
    match Find(line, "(", 0)
    case None => ReadOther(Split(line, " "))
    case Some(i) =>
      var (bytes, end) :- ReadLiteral(line, i + 1, 0);
      if end <= |line| && line[end..] == " Tj ET" then ReadText(Split(line[..i], " "), bytes) else None
  }

  function ReadLines(lines: seq<string>): Option<seq<Mark>>
  {
    if lines == [] then Some([])
    else
      var rest :- ReadLines(lines[1..]);
      if lines[0] == "" then Some(rest)
      else
        var mark :- ReadMark(lines[0]);
        Some([mark] + rest)
  }

  /** Everything a content stream draws, in order. */
  function ReadMarks(content: string): Option<seq<Mark>>
  {
    ReadLines(Split(content, "\n"))
  }

  // ---------- printed numbers are read ----------

  lemma {:induction false} WholeReads(digits: string)
    requires Digits(digits)
    ensures ReadFixed(digits) == Some(100 * Value(digits))
  {
    FindChar(digits, '.');
    assert IsDigit(digits[0]);
  }

  lemma {:induction false} DecimalReads(whole: string, decimals: string)
    requires Digits(whole) && Digits(decimals) && |decimals| <= 2
    ensures Unsigned(whole + "." + decimals)
         == Some(100 * Value(whole) + (if |decimals| == 1 then 10 else 1) * Value(decimals))
  {
    var t := whole + "." + decimals;
    FindChar(t, '.');
    var i := Find(t, ".", 0);
    assert t[|whole|] == '.';
    assert '.' in t;
    assert forall k :: 0 <= k < |whole| ==> t[k] == whole[k] && IsDigit(whole[k]);
    assert OccursAt(t, ".", |whole|) && i.value == |whole|;
    assert t[..|whole|] == whole && t[|whole| + 1..] == decimals;
  }

  lemma {:induction false} FixedReads(whole: string, decimals: string)
    requires Digits(whole) && Digits(decimals) && |decimals| <= 2
    ensures ReadFixed(whole + "." + decimals)
         == Some(100 * Value(whole) + (if |decimals| == 1 then 10 else 1) * Value(decimals))
  {
    DecimalReads(whole, decimals);
    assert (whole + "." + decimals)[0] == whole[0] && IsDigit(whole[0]);
  }

  lemma {:induction false} DecReads(n: nat)
    ensures ReadFixed(Dec(n)) == Some(100 * n)
  {
    WholeReads(Dec(n));
  }

  lemma {:induction false} ValueOfOne(d: nat)
    requires d < 10
    ensures Value([Digit(d)]) == d
  {
    var s := [Digit(d)];
    assert s[..0] == "" && Value("") == 0;
  }

  lemma {:induction false} ValueOfTwo(a: nat, b: nat)
    requires a < 10 && b < 10
    ensures Value([Digit(a), Digit(b)]) == 10 * a + b
  {
    var s := [Digit(a), Digit(b)];
    assert s[..1] == [Digit(a)];
    ValueOfOne(a);
  }

  lemma {:induction false} TenthsRead(v: int)
    ensures ReadFixed(Tenths(v)) == Some(100 * v)
  {
    var digits := Dec(if v < 0 then -v else v);
    assert Value("0") == 0 by {
      assert "0"[..0] == "";
    }
    assert digits + ".0" == digits + "." + "0";
    if v < 0 {
      DecimalReads(digits, "0");
      assert Tenths(v)[1..] == digits + ".0";
    } else {
      FixedReads(digits, "0");
    }
  }

  lemma {:induction false} HundredthsRead(n: nat)
    ensures ReadFixed(Hundredths(n)) == Some(n)
  {
    TwoDecimalsRead(Dec(n / 100), n / 10 % 10, n % 10);
    HundredthsSum(n);
  }

  lemma {:induction false} TwoDecimalsRead(whole: string, a: nat, b: nat)
    requires Digits(whole) && a < 10 && b < 10
    ensures ReadFixed(if b == 0 then whole + "." + [Digit(a)] else whole + "." + [Digit(a)] + [Digit(b)])
         == Some(100 * Value(whole) + 10 * a + b)
  {
    ValueOfOne(a);
    ValueOfTwo(a, b);
    if b == 0 {
      FixedReads(whole, [Digit(a)]);
    } else {
      FixedReads(whole, [Digit(a), Digit(b)]);
      assert whole + "." + [Digit(a)] + [Digit(b)] == whole + "." + [Digit(a), Digit(b)];
    }
  }

  lemma {:induction false} HundredthsSum(n: nat)
    ensures n == 100 * (n / 100) + 10 * (n / 10 % 10) + n % 10
  {
  }

  // ---------- printed operations are read ----------

  /** What an operation draws. */
  function MarkOf(op: Op): Mark
  {
    match op
    case TextOp(x, y, size, text, bold, gray) =>
      TextMark(100 * x, 100 * y, 100 * size, (gray, gray, gray), if bold then "/F2" else "/F1",
               NormalizeEol(WinBytes(text)))
    case ImageOp(index, x, y, w, h) => ImageMark(100 * x, 100 * y, 100 * w, 100 * h, "/Im" + Dec(index))
    case RuleOp(x1, y1, x2, y2, gray) =>
      RuleMark(100 * x1, 100 * y1, 100 * x2, 100 * y2, 70, (gray, gray, gray))
  }

  function MarksOf(ops: seq<Op>): seq<Mark>
  {
    if ops == [] then [] else [MarkOf(ops[0])] + MarksOf(ops[1..])
  }

  lemma {:induction false} TokensSplit(tokens: seq<string>)
    requires tokens != [] && AllLack(tokens, ' ')
    ensures Split(Join(tokens, " "), " ") == tokens
  {
    forall t | t in tokens ensures Splittable(t, " ") {
      CharSplittable(t, ' ');
    }
    SplitJoin(tokens, " ");
  }

  lemma {:induction false} OtherReads(op: Op)
    requires !op.TextOp?
    ensures ReadOther(Tokens(op)) == Some(MarkOf(op))
  {
    match op
    case ImageOp(index, x, y, w, h) =>
      TenthsRead(x);
      TenthsRead(y);
      TenthsRead(w);
      TenthsRead(h);
      ImageTokensRead(Tenths(w), Tenths(h), Tenths(x), Tenths(y), "/Im" + Dec(index));
    case RuleOp(x1, y1, x2, y2, gray) =>
      HundredthsRead(gray);
      TenthsRead(x1);
      TenthsRead(y1);
      TenthsRead(x2);
      TenthsRead(y2);
      RuleTokensRead(Hundredths(gray), Tenths(x1), Tenths(y1), Tenths(x2), Tenths(y2));
  }

  lemma {:induction false} ImageTokensRead(w: string, h: string, x: string, y: string, name: string)
    requires ReadFixed(w).Some? && ReadFixed(h).Some? && ReadFixed(x).Some? && ReadFixed(y).Some?
    ensures ReadOther(["q", w, "0", "0", h, x, y, "cm", name, "Do", "Q"])
         == Some(ImageMark(ReadFixed(x).value, ReadFixed(y).value, ReadFixed(w).value, ReadFixed(h).value, name))
  {
  }

  lemma {:induction false} SevenTenths()
    ensures ReadFixed("0.7") == Some(70)
  {
    assert Value("0") == 0 && Value("7") == 7 by {
      assert "0"[..0] == "" && "7"[..0] == "";
    }
    FixedReads("0", "7");
    assert "0" + "." + "7" == "0.7";
  }

  lemma {:induction false} RuleTokensRead(g: string, x1: string, y1: string, x2: string, y2: string)
    requires ReadFixed(g).Some? && ReadFixed(x1).Some? && ReadFixed(y1).Some?
    requires ReadFixed(x2).Some? && ReadFixed(y2).Some?
    ensures var shade := ReadFixed(g).value;
            ReadOther([g, g, g, "RG", "0.7", "w", x1, y1, "m", x2, y2, "l", "S"])
            == Some(RuleMark(ReadFixed(x1).value, ReadFixed(y1).value, ReadFixed(x2).value, ReadFixed(y2).value, 70,
                             (shade, shade, shade)))
  {
    SevenTenths();
    var t := [g, g, g, "RG", "0.7", "w", x1, y1, "m", x2, y2, "l", "S"];
    assert t[0] == t[1] == t[2] == g && t[4] == "0.7" && t[6] == x1 && t[7] == y1 && t[9] == x2 && t[10] == y2;
    assert |t| == 13 && t[3] == "RG" && t[5] == "w" && t[8] == "m" && t[11] == "l" && t[12] == "S";
  }

  lemma {:induction false} OtherMarkReads(op: Op)
    requires !op.TextOp?
    ensures ReadMark(Printed(op)) == Some(MarkOf(op))
  {
    OtherOpsLack(op, '(');
    FindChar(Printed(op), '(');
    TokensLack(op, ' ');
    TokensSplit(Tokens(op));
    OtherReads(op);
  }

  lemma {:induction false} LeadReads(x: int, y: int, size: nat, bold: bool, gray: nat, bytes: string)
    ensures ReadText(Split(TextLead(x, y, size, bold, gray), " "), bytes)
         == Some(TextMark(100 * x, 100 * y, 100 * size, (gray, gray, gray), if bold then "/F2" else "/F1", bytes))
  {
    var tokens := LeadTokens(x, y, size, bold, gray);
    LeadTokensLack(x, y, size, bold, gray, ' ');
    TokensSplit(tokens + [""]);
    JoinAppend(tokens, "", " ");
    assert TextLead(x, y, size, bold, gray) == Join(tokens, " ") + " " + "";
    HundredthsRead(gray);
    DecReads(size);
    TenthsRead(x);
    TenthsRead(y);
    LeadTokensRead(Hundredths(gray), if bold then "/F2" else "/F1", Dec(size), Tenths(x), Tenths(y), bytes);
    assert tokens + [""] == ["BT", Hundredths(gray), Hundredths(gray), Hundredths(gray), "rg",
                             if bold then "/F2" else "/F1", Dec(size), "Tf", Tenths(x), Tenths(y), "Td", ""];
  }

  lemma {:induction false} LeadTokensRead(g: string, font: string, size: string, x: string, y: string, bytes: string)
    requires ReadFixed(g).Some? && ReadFixed(size).Some? && ReadFixed(x).Some? && ReadFixed(y).Some?
    ensures var shade := ReadFixed(g).value;
            ReadText(["BT", g, g, g, "rg", font, size, "Tf", x, y, "Td", ""], bytes)
            == Some(TextMark(ReadFixed(x).value, ReadFixed(y).value, ReadFixed(size).value, (shade, shade, shade), font,
                             bytes))
  {
    var t := ["BT", g, g, g, "rg", font, size, "Tf", x, y, "Td", ""];
    assert t[1] == t[2] == t[3] == g && t[5] == font && t[6] == size && t[8] == x && t[9] == y;
    assert |t| == 12 && t[0] == "BT" && t[4] == "rg" && t[7] == "Tf" && t[10] == "Td" && t[11] == "";
  }

  lemma {:induction false} TextMarkReads(lead: string, text: string)
    requires '(' !in lead
    ensures var line := lead + "(" + Escape(WinBytes(text)) + ")" + TEXT_END;
            ReadMark(line) == ReadText(Split(lead, " "), NormalizeEol(WinBytes(text)))
  {
    var shown := Escape(WinBytes(text));
    var line := lead + "(" + shown + ")" + TEXT_END;
    ParenthesisAt(lead, shown, TEXT_END);
    TextReads(lead + "(", text, TEXT_END);
    BehindText(lead, shown, TEXT_END);
  }

  lemma {:induction false} BehindText(lead: string, shown: string, end: string)
    ensures var line := lead + "(" + shown + ")" + end;
            line[|lead| + 1 + |shown| + 1..] == end && line[..|lead|] == lead
  {
  }

  /** A printed operation is read as what it draws. */
  lemma {:induction false} MarkReads(op: Op)
    ensures ReadMark(Printed(op)) == Some(MarkOf(op)) && Printed(op) != ""
  {
    if op.TextOp? {
      LeadLacks(op.x, op.y, op.size, op.bold, op.gray, '(');
      TextMarkReads(TextLead(op.x, op.y, op.size, op.bold, op.gray), op.text);
      LeadReads(op.x, op.y, op.size, op.bold, op.gray, NormalizeEol(WinBytes(op.text)));
    } else {
      OtherMarkReads(op);
      assert Find("", "(", 0).None? && Split("", " ") == [""];
    }
  }

  lemma {:induction false} PrintedLinesRead(ops: seq<Op>)
    requires AllOneLine(ops)
    ensures ReadLines(PrintedAll(ops)) == Some(MarksOf(ops))
    ensures forall line :: line in PrintedAll(ops) ==> '\n' !in line
  {
    if ops != [] {
      assert ops[0] in ops;
      MarkReads(ops[0]);
      PrintedIsOneLine(ops[0]);
      PrintedLinesRead(ops[1..]);
      assert PrintedAll(ops)[1..] == PrintedAll(ops[1..]);
    }
  }

  /** Whatever is drawn on a page, with texts of one line each, a reader of its content stream gets it back:
      every text with its bytes, place, size, shade and font, every picture with its place, size and name, and
      every rule. */
  lemma {:induction false} ContentReadsBack(ops: seq<Op>)
    requires AllOneLine(ops)
    ensures ReadMarks(Join(PrintedAll(ops), "\n")) == Some(MarksOf(ops))
  {
    var lines := PrintedAll(ops);
    PrintedLinesRead(ops);
    if ops == [] {
      assert Find("", "\n", 0).None? && Split("", "\n") == [""];
      assert [""][1..] == [];
    } else {
      forall line | line in lines ensures Splittable(line, "\n") {
        CharSplittable(line, '\n');
      }
      SplitJoin(lines, "\n");
    }
  }
}
