/** Carriage returns in the paragraphs of a report: which of those at the ends of lines survive wrapping,
    and so spoil what a reader gets back. */
module LineEndings {
  import opened Wrappers
  import opened Text
  import opened WordWrap
  import opened PngDecode
  import opened PdfFormat
  import opened PdfDrawing
  import opened PdfReadback
  import opened ReportLayout
  import opened PdfPlaceholder
  import opened ReportPdf

  /** A carriage return stands at the end of the line, if anywhere. */
  predicate ReturnAtEndOnly(line: string)
  {
    line == "" || '\r' !in line[..|line| - 1]
  }

  /** The line being filled when all words have been taken. */
  function Filling(current: string, words: seq<string>, col: Column): string
    decreases |words|
  {
    if words == [] then current
    else
      var candidate := Strip(current + " " + words[0]);
      Filling(if current != "" && col.TooWide(candidate) then words[0] else candidate, words[1..], col)
  }

  /** The last word of the line does not fit behind the words before it. */
  predicate LastWordBreaks(line: string, col: Column)
  {
    var words := Split(line, " ");
    var before := Filling("", words[..|words| - 1], col);
    before != "" && col.TooWide(Strip(before + " " + words[|words| - 1]))
  }

  /** The line ends in a carriage return, and its last word is put on a line of its own, unstripped. */
  predicate KeepsReturn(line: string, col: Column)
  {
    line != "" && line[|line| - 1] == '\r' && LastWordBreaks(line, col)
  }

  // ---------- wrapping one line ----------

  lemma {:induction false} WrapLast(current: string, words: seq<string>, last: string, col: Column)
    ensures var lines, c := WrapWords(current, words, col), Filling(current, words, col);
            WrapWords(current, words + [last], col) == lines[..|lines| - 1] + WrapWords(c, [last], col)
            && lines[|lines| - 1] == c
    decreases |words|
  {
    if words == [] {
      assert words + [last] == [last];
      assert [current][..0] == [] && [] + WrapWords(current, [last], col) == WrapWords(current, [last], col);
    } else {
      assert (words + [last])[0] == words[0] && (words + [last])[1..] == words[1..] + [last];
      var candidate := Strip(current + " " + words[0]);
      if current != "" && col.TooWide(candidate) {
        WrapLast(words[0], words[1..], last, col);
        var rest := WrapWords(words[0], words[1..], col);
        AllButLast(current, rest, WrapWords(Filling(words[0], words[1..], col), [last], col));
      } else {
        WrapLast(candidate, words[1..], last, col);
      }
    }
  }

  lemma {:induction false} AllButLast(first: string, rest: seq<string>, more: seq<string>)
    requires rest != []
    ensures var all := [first] + rest;
            all[..|all| - 1] + more == [first] + (rest[..|rest| - 1] + more) && all[|all| - 1] == rest[|rest| - 1]
  {
  }

  lemma {:induction false} StripsReturn(s: string)
    requires '\r' !in s
    ensures '\r' !in Strip(s + "\r")
  {
    if s == "" {
      assert s + "\r" == "\r" && "\r"[1..] == "";
    } else if PySpace(s[0]) {
      assert (s + "\r")[1..] == s[1..] + "\r";
      StripsReturn(s[1..]);
    } else {
      var all := s + "\r";
      assert all[..|all| - 1] == s && TrimLeft(all, PySpace) == all;
      var r := TrimRight(s, PySpace);
      assert TrimRight(all, PySpace) == r && r == s[..|r|];
    }
  }

  lemma {:induction false} FreeWordsWrapFree(current: string, words: seq<string>, col: Column)
    requires '\r' !in current && NoReturns(words)
    ensures NoReturns(WrapWords(current, words, col))
    decreases |words|
  {
    if words != [] {
      var candidate := Strip(current + " " + words[0]);
      StripLacks(current + " " + words[0], '\r');
      FreeWordsWrapFree(if current != "" && col.TooWide(candidate) then words[0] else candidate, words[1..], col);
    }
  }

  lemma {:induction false} LastWord(words: seq<string>, w: string, col: Column)
    requires NoReturns(words) && '\r' !in w
    ensures var c, last := Filling("", words, col), w + "\r";
            NoReturns(WrapWords("", words + [last], col)) <==> !(c != "" && col.TooWide(Strip(c + " " + last)))
  {
    var lines, c, last := WrapWords("", words, col), Filling("", words, col), w + "\r";
    WrapLast("", words, last, col);
    FreeWordsWrapFree("", words, col);
    var all := WrapWords("", words + [last], col);
    var one := [last];
    assert one[1..] == [];
    if c != "" && col.TooWide(Strip(c + " " + last)) {
      assert WrapWords(c, [last], col) == [c] + [last];
      assert all[|all| - 1] == last && last[|w|] == '\r';
    } else {
      assert c + " " + last == (c + " " + w) + "\r";
      StripsReturn(c + " " + w);
      assert WrapWords(c, [last], col) == [Strip(c + " " + last)];
    }
  }

  // ---------- the words of a line ----------

  /** The parts, with a character added to the last one. */
  function AtEnd(parts: seq<string>, x: char): seq<string>
    requires parts != []
  {
    parts[..|parts| - 1] + [parts[|parts| - 1] + [x]]
  }

  lemma {:induction false} AtEndOfRest(first: string, rest: seq<string>, x: char)
    requires rest != []
    ensures AtEnd([first] + rest, x) == [first] + AtEnd(rest, x)
  {
  }

  lemma {:induction false} SplitEnd(s: string, x: char, c: char)
    requires x != c
    ensures Split(s + [x], [c]) == AtEnd(Split(s, [c]), x)
    decreases |s|, 1
  {
    FindChar(s, c);
    if c !in s {
      FindChar(s + [x], c);
      assert c !in s + [x];
    } else {
      var i := Find(s, [c], 0).value;
      SplitEndBehind(s[..i], s[i + 1..], s, x, c);
    }
  }

  lemma {:induction false} SplitEndBehind(head: string, tail: string, s: string, x: char, c: char)
    requires x != c && c !in head && s == head + [c] + tail
    ensures Split(s + [x], [c]) == AtEnd(Split(s, [c]), x)
    decreases |s|, 0
  {
    CharSplittable(head, c);
    assert s + [x] == head + [c] + (tail + [x]);
    SplitFirst(head, [c], tail);
    SplitFirst(head, [c], tail + [x]);
    SplitEnd(tail, x, c);
    AtEndOfRest(head, Split(tail, [c]), x);
  }

  lemma {:induction false} PartsAreFree(s: string, c: char)
    requires '\r' !in s
    ensures NoReturns(Split(s, [c]))
    decreases |s|
  {
    match Find(s, [c], 0)
    case None =>
    case Some(i) =>
      PartsAreFree(s[i + 1..], c);
  }

  /** A line with at most a carriage return at its end is wrapped into lines without one, exactly unless its
      last word breaks. */
  lemma {:induction false} LineKeepsReturn(line: string, col: Column)
    requires ReturnAtEndOnly(line)
    ensures NoReturns(WrapLine(line, col)) <==> !KeepsReturn(line, col)
  {
    if line != "" && line[|line| - 1] == '\r' {
      var body := line[..|line| - 1];
      var parts := Split(body, " ");
      var words, w := parts[..|parts| - 1], parts[|parts| - 1];
      assert line == body + ['\r'];
      SplitEnd(body, '\r', ' ');
      PartsAreFree(body, ' ');
      assert w in parts;
      LastWord(words, w, col);
      assert Split(line, " ") == words + [w + "\r"];
      assert (words + [w + "\r"])[..|words|] == words;
    } else {
      assert '\r' !in line;
      PartsAreFree(line, ' ');
      FreeWordsWrapFree("", Split(line, " "), col);
    }
  }

  // ---------- texts, paragraphs, reports ----------

  ghost predicate WindowsText(text: string)
  {
    forall l :: l in Split(text, "\n") ==> ReturnAtEndOnly(l)
  }

  ghost predicate StripsReturns(text: string, col: Column)
  {
    forall l :: l in Split(text, "\n") ==> !KeepsReturn(l, col)
  }

  lemma {:induction false} LinesKeepReturns(raw: seq<string>, col: Column)
    requires forall l :: l in raw ==> ReturnAtEndOnly(l)
    ensures NoReturns(WrapLines(raw, col)) <==> forall l :: l in raw ==> !KeepsReturn(l, col)
  {
    if raw != [] {
      LineKeepsReturn(raw[0], col);
      LinesKeepReturns(raw[1..], col);
      ReturnsInBoth(WrapLine(raw[0], col), WrapLines(raw[1..], col));
      assert raw == [raw[0]] + raw[1..];
    }
  }

  lemma {:induction false} ReturnsInBoth(a: seq<string>, b: seq<string>)
    ensures NoReturns(a + b) <==> NoReturns(a) && NoReturns(b)
  {
    if NoReturns(a + b) {
      forall k | 0 <= k < |a| ensures '\r' !in a[k] {
        assert (a + b)[k] == a[k];
      }
      forall k | 0 <= k < |b| ensures '\r' !in b[k] {
        assert (a + b)[|a| + k] == b[k];
      }
    }
  }

  lemma {:induction false} ParasKeepReturns(paras: seq<Para>)
    requires forall p :: p in paras ==> WindowsText(p.text)
    ensures NoReturns(AllLines(paras)) <==> forall p :: p in paras ==> StripsReturns(p.text, ColumnOf(p))
  {
    if paras != [] {
      var p := paras[0];
      LinesKeepReturns(Split(p.text, "\n"), ColumnOf(p));
      ParasKeepReturns(paras[1..]);
      ReturnsInBoth(LinesOf(p), AllLines(paras[1..]));
      assert paras == [p] + paras[1..];
    }
  }

  /** A report whose paragraphs have Windows line endings, or any mixture with others, reads back exactly
      unless the last word of such a line breaks: that word is drawn with its carriage return. */
  lemma {:induction false} WindowsReportReadsBack(report: Report, inflate: Inflate, deflate: Deflate)
    requires AllTextsFree(AllLines(Paras(report, inflate)), PARENT)
    requires AllFit(Offsets(PDF, BuiltReport(report, inflate, deflate).objects, 1, |PDF.header|))
    requires forall p :: p in Paras(report, inflate) ==> WindowsText(p.text)
    ensures ReadTexts(Rendered(report, inflate, deflate)) == Some(WinAll(AllLines(Paras(report, inflate))))
            <==> forall p :: p in Paras(report, inflate) ==> StripsReturns(p.text, ColumnOf(p))
  {
    ReportReadsBack(report, inflate, deflate);
    ParasKeepReturns(Paras(report, inflate));
  }

  // ---------- three texts ----------

  /** The carriage return of a short line is stripped. */
  lemma {:induction false} ShortLineIsStripped(col: Column)
    ensures !KeepsReturn("a\r", col) && WrapLine("a\r", col) == ["a"]
  {
    FindChar("a\r", ' ');
    OneWord("a\r", col);
    StripsTo("a\r", "a");
  }

  /** Behind a word that fills the line, the next one is drawn with its carriage return. */
  lemma {:induction false} LastWordKeepsReturn(word: string, col: Column)
    requires Unpadded(word, PySpace) && ' ' !in word && '\r' !in word && col.TooWide(word)
    ensures ReturnAtEndOnly(word + " b\r") && KeepsReturn(word + " b\r", col)
    ensures WrapLine(word + " b\r", col) == [word, "b\r"]
  {
    EndsInReturn(word + " b", word + " b\r");
    SplitsBeforeLast(word);
    StripLeadingSpace(word);
    TrimUnpadded(word, PySpace);
    TwoWordsStrip(word);
    StillTooWide(word, " b", col);
    TwoWords(word + " b\r", word, "b\r", col);
  }

  lemma {:induction false} EndsInReturn(body: string, line: string)
    requires '\r' !in body && line == body + "\r"
    ensures ReturnAtEndOnly(line) && line != "" && line[|line| - 1] == '\r'
  {
    assert line[..|line| - 1] == body;
  }

  lemma {:induction false} SplitsBeforeLast(word: string)
    requires ' ' !in word
    ensures Split(word + " b\r", " ") == [word, "b\r"]
  {
    CharSplittable(word, ' ');
    assert word + " b\r" == word + " " + "b\r";
    SplitFirst(word, " ", "b\r");
    FindChar("b\r", ' ');
    assert Split("b\r", " ") == ["b\r"];
  }

  /** Two words that do not fit on one line. */
  lemma {:induction false} TwoWords(line: string, first: string, second: string, col: Column)
    requires Split(line, " ") == [first, second] && first != "" && Strip("" + " " + first) == first
    requires col.TooWide(Strip(first + " " + second))
    ensures LastWordBreaks(line, col) && WrapLine(line, col) == [first, second]
  {
    var words := [first, second];
    assert words[..1] == [first] && words[1..] == [second] && words[1..][1..] == [];
    var one := [first];
    assert one[1..] == [] && Filling("", one, col) == first;
    assert WrapWords(first, words[1..], col) == [first] + WrapWords(second, [], col);
  }

  lemma {:induction false} StillTooWide(line: string, more: string, col: Column)
    requires col.TooWide(line)
    ensures col.TooWide(line + more)
  {
    LineWidthConcat(line, more);
    Wider(LineWidth(line), LineWidth(more), col.size);
  }

  lemma {:induction false} Wider(a: nat, b: nat, size: nat)
    ensures a * size <= (a + b) * size
  {
  }

  lemma {:induction false} TwoWordsStrip(word: string)
    requires Unpadded(word, PySpace)
    ensures Strip(word + " " + "b\r") == word + " b"
  {
    var all, core := word + " " + "b\r", word + " b";
    assert all == core + "\r" && all[..|all| - 1] == core;
    assert TrimLeft(all, PySpace) == all && TrimRight(core, PySpace) == core;
    assert TrimRight(all, PySpace) == TrimRight(core, PySpace);
  }

  /** A carriage return inside a word is always drawn, and lost. */
  lemma {:induction false} ReturnInWordIsLost(col: Column)
    ensures Wrapped("a\rb", col) == ["a\rb"] && ReadAll(["a\rb"]) != WinAll(["a\rb"])
  {
    var text := "a\rb";
    FindChar(text, '\n');
    FindChar(text, ' ');
    assert Split(text, "\n") == [text];
    OneWord(text, col);
    StripsTo(text, text);
    var raw := [text];
    assert raw[1..] == [] && WrapLines(raw[1..], col) == [];
    ReadAllExactly([text]);
    assert text[1] == '\r' && text in [text];
    assert [text][0] == text;
  }

  lemma {:induction false} OneWord(word: string, col: Column)
    requires Find(word, " ", 0).None?
    ensures WrapLine(word, col) == [Strip(" " + word)] && !LastWordBreaks(word, col)
  {
    var words := [word];
    assert Split(word, " ") == words && words[..0] == [];
    assert words[1..] == [] && "" + " " + word == " " + word;
    assert WrapWords(Strip(" " + word), words[1..], col) == [Strip(" " + word)];
  }

  lemma {:induction false} StripsTo(word: string, core: string)
    requires core != "" && Unpadded(core, PySpace) && (word == core || word == core + "\r")
    ensures Strip(" " + word) == core
  {
    assert (" " + word)[1..] == word;
    assert word[0] == core[0];
    assert TrimLeft(word, PySpace) == word;
    assert TrimRight(core, PySpace) == core;
    if word != core {
      assert word[..|word| - 1] == core && PySpace(word[|word| - 1]);
    }
  }
}
