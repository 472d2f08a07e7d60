/** The word wrapper of the PDF export. Widths are in hundredths of the font size: 28 for a
    narrow character, 50 for any other. */
module WordWrap {
  import opened Text
  import opened GreedyPacking

  const NARROW := "iljtfI|.,;:'!()[]{}/\\ "

  function CharWidth(c: char): nat
  {
    if c in NARROW then 28 else 50
  }

  function LineWidth(s: string): nat
  {
    if s == [] then 0 else CharWidth(s[0]) + LineWidth(s[1..])
  }

  /** The font size and the width, both in points, that a paragraph is wrapped to. */
  datatype Column = Column(size: nat, width: int) {
    predicate TooWide(line: string)
    {
      LineWidth(line) * size > 100 * width
    }
  }

  // ---------- how wide a line is, without the wrapper's own sum ----------

  /** How many characters of a line are narrow ones. */
  function Thin(s: string): nat
  {
    if s == "" then 0
    else (if s[0] in {'i', 'l', 'j', 't', 'f', 'I', '|', '.', ',', ';', ':', '\'', '!', '(', ')', '[', ']', '{', '}',
                      '/', '\\', ' '} then 1 else 0) + Thin(s[1..])
  }

  /** Half the font size for every character, less 0.22 of it for a narrow one, is more than the width. */
  predicate Overflows(line: string, col: Column)
  {
    col.size * (50 * |line| - 22 * Thin(line)) > 100 * col.width
  }

  lemma {:induction false} NarrowIsThin(c: char)
    ensures CharWidth(c) == 50 - 22 * Thin([c])
  {
    assert [c][1..] == "" && Thin([c][1..]) == 0;
    if c in NARROW {
      var k :| 0 <= k < |NARROW| && NARROW[k] == c;
    } else {
      assert NARROW[0] == 'i' && NARROW[1] == 'l' && NARROW[2] == 'j' && NARROW[3] == 't' && NARROW[4] == 'f'
        && NARROW[5] == 'I' && NARROW[6] == '|' && NARROW[7] == '.' && NARROW[8] == ',' && NARROW[9] == ';'
        && NARROW[10] == ':' && NARROW[11] == '\'' && NARROW[12] == '!' && NARROW[13] == '(' && NARROW[14] == ')'
        && NARROW[15] == '[' && NARROW[16] == ']' && NARROW[17] == '{' && NARROW[18] == '}' && NARROW[19] == '/'
        && NARROW[20] == '\\' && NARROW[21] == ' ';
    }
  }

  /** The wrapper's sum is half the size for every character, less what the narrow ones save. */
  lemma {:induction false} WidthByCount(s: string)
    ensures LineWidth(s) == 50 * |s| - 22 * Thin(s)
  {
    if s != "" {
      NarrowIsThin(s[0]);
      assert [s[0]][1..] == "" && Thin("") == 0;
      WidthByCount(s[1..]);
    }
  }

  lemma {:induction false} TooWideOverflows(line: string, col: Column)
    ensures col.TooWide(line) <==> Overflows(line, col)
  {
    WidthByCount(line);
  }

  // ---------- the loop ----------

  /** The lines still to come when `current` is being filled and `words` are left. */
  function WrapWords(current: string, words: seq<string>, col: Column): (lines: seq<string>)
    ensures lines != []
    decreases |words|
  {
    if words == [] then [current]
    else
      var candidate := Strip(current + " " + words[0]);
      if current != "" && col.TooWide(candidate) then
        [current] + WrapWords(words[0], words[1..], col)
      else
        WrapWords(candidate, words[1..], col)
  }

  function WrapLine(line: string, col: Column): (lines: seq<string>)
    ensures lines != []
  {
    WrapWords("", Split(line, " "), col)
  }

  function WrapLines(raw: seq<string>, col: Column): seq<string>
  {
    if raw == [] then [] else WrapLine(raw[0], col) + WrapLines(raw[1..], col)
  }

  function Wrapped(text: string, col: Column): seq<string>
  {
    WrapLines(Split(text, "\n"), col)
  }

  /** Even an empty text has a line. */
  lemma {:induction false} WrappedHasLines(text: string, col: Column)
    ensures Wrapped(text, col) != []
  {
    var raw := Split(text, "\n");
    assert raw != [] && Wrapped(text, col) == WrapLine(raw[0], col) + WrapLines(raw[1..], col);
  }

  method Wrap(text: string, col: Column) returns (lines: seq<string>)
    ensures lines == Wrapped(text, col)
  {
    lines := [];
    var raw := Split(text, "\n");
    for i := 0 to |raw|
      invariant Wrapped(text, col) == lines + WrapLines(raw[i..], col)
    {
      var words := Split(raw[i], " ");
      var current := "";
      ghost var before := lines;
      for j := 0 to |words|
        invariant before + WrapLine(raw[i], col) == lines + WrapWords(current, words[j..], col)
      {
        WrapUnrolled(current, words, j, col, lines);
        var candidate := Strip(current + " " + words[j]);
        if current != "" && col.TooWide(candidate) {
          lines := lines + [current];
          current := words[j];
        } else {
          current := candidate;
        }
      }
      lines := lines + [current];
      assert lines == before + WrapLine(raw[i], col);
      RegroupLines(before, WrapLine(raw[i], col), WrapLines(raw[i + 1..], col));
      assert raw[i..][1..] == raw[i + 1..];
    }
  }

  lemma {:induction false} WrapUnrolled(current: string, words: seq<string>, j: nat, col: Column, lines: seq<string>)
    requires j < |words|
    ensures var candidate := Strip(current + " " + words[j]);
            lines + WrapWords(current, words[j..], col)
            == if current != "" && col.TooWide(candidate)
               then lines + [current] + WrapWords(words[j], words[j + 1..], col)
               else lines + WrapWords(candidate, words[j + 1..], col)
  {
    assert words[j..][1..] == words[j + 1..];
    RegroupLines(lines, [current], WrapWords(words[j], words[j + 1..], col));
  }

  lemma {:induction false} RegroupLines(a: seq<string>, b: seq<string>, c: seq<string>)
    ensures a + (b + c) == a + b + c
  {
  }

  // ---------- every input: no ink is lost, and only single words overflow ----------

  /** The characters of a text that are not blank. */
  function Ink(s: string): string
  {
    if s == [] then "" else (if PySpace(s[0]) then "" else [s[0]]) + Ink(s[1..])
  }

  lemma {:induction false} InkConcat(a: string, b: string)
    ensures Ink(a + b) == Ink(a) + Ink(b)
  {
    if a == [] {
      assert a + b == b;
    } else {
      assert (a + b)[1..] == a[1..] + b;
      InkConcat(a[1..], b);
    }
  }

  lemma {:induction false} InkTrimLeft(s: string)
    ensures Ink(TrimLeft(s, PySpace)) == Ink(s)
  {
    if s != [] && PySpace(s[0]) {
      InkTrimLeft(s[1..]);
    }
  }

  lemma {:induction false} InkTrimRight(s: string)
    ensures Ink(TrimRight(s, PySpace)) == Ink(s)
  {
    if s != [] && PySpace(s[|s| - 1]) {
      InkTrimRight(s[..|s| - 1]);
      assert s == s[..|s| - 1] + [s[|s| - 1]];
      InkConcat(s[..|s| - 1], [s[|s| - 1]]);
      assert Ink([s[|s| - 1]]) == "";
    }
  }

  lemma {:induction false} InkStrip(s: string)
    ensures Ink(Strip(s)) == Ink(s)
  {
    InkTrimLeft(s);
    InkTrimRight(TrimLeft(s, PySpace));
  }

  lemma {:induction false} InkJoin(parts: seq<string>, sep: string)
    requires Ink(sep) == ""
    ensures Ink(Join(parts, sep)) == Ink(Flatten(parts))
  {
    if |parts| == 1 {
      assert Flatten(parts) == parts[0];
    } else if |parts| > 1 {
      InkJoin(parts[1..], sep);
      InkConcat(parts[0] + sep, Join(parts[1..], sep));
      InkConcat(parts[0], sep);
      InkConcat(parts[0], Flatten(parts[1..]));
    }
  }

  lemma {:induction false} WrapWordsKeepsInk(current: string, words: seq<string>, col: Column)
    ensures Ink(Flatten(WrapWords(current, words, col))) == Ink(current) + Ink(Flatten(words))
    decreases |words|
  {
    if words == [] {
      assert Flatten([current]) == current;
    } else {
      var candidate, rest := Strip(current + " " + words[0]), words[1..];
      InkOfRest(words);
      if current != "" && col.TooWide(candidate) {
        WrapWordsKeepsInk(words[0], rest, col);
        InkOfFirst(current, WrapWords(words[0], rest, col));
      } else {
        WrapWordsKeepsInk(candidate, rest, col);
        InkOfCandidate(current, words[0], Ink(Flatten(rest)));
      }
    }
  }

  lemma {:induction false} InkOfFirst(line: string, later: seq<string>)
    ensures Ink(Flatten([line] + later)) == Ink(line) + Ink(Flatten(later))
  {
    assert ([line] + later)[1..] == later;
    InkConcat(line, Flatten(later));
  }

  lemma {:induction false} InkOfRest(words: seq<string>)
    requires words != []
    ensures Ink(Flatten(words)) == Ink(words[0]) + Ink(Flatten(words[1..]))
  {
    InkConcat(words[0], Flatten(words[1..]));
  }

  lemma {:induction false} InkOfCandidate(current: string, word: string, later: string)
    ensures Ink(Strip(current + " " + word)) + later == Ink(current) + (Ink(word) + later)
  {
    InkStrip(current + " " + word);
    InkConcat(current + " ", word);
    InkConcat(current, " ");
    assert Ink(" ") == "";
  }

  lemma {:induction false} WrapLinesKeepsInk(raw: seq<string>, col: Column)
    ensures Ink(Flatten(WrapLines(raw, col))) == Ink(Flatten(raw))
  {
    if raw != [] {
      var words := Split(raw[0], " ");
      WrapWordsKeepsInk("", words, col);
      assert Ink(" ") == "";
      InkJoin(words, " ");
      JoinSplit(raw[0], " ");
      WrapLinesKeepsInk(raw[1..], col);
      FlattenConcat(WrapLine(raw[0], col), WrapLines(raw[1..], col));
      InkConcat(Flatten(WrapLine(raw[0], col)), Flatten(WrapLines(raw[1..], col)));
      InkConcat(raw[0], Flatten(raw[1..]));
    }
  }

  /** Whatever the text, wrapping only moves and removes blanks: the visible characters come out
      in order, each exactly once. */
  lemma {:induction false} WrapKeepsInk(text: string, col: Column)
    ensures Ink(Flatten(Wrapped(text, col))) == Ink(text)
  {
    var raw := Split(text, "\n");
    WrapLinesKeepsInk(raw, col);
    assert Ink("\n") == "";
    InkJoin(raw, "\n");
    JoinSplit(text, "\n");
  }

  ghost predicate SingleWord(line: string, words: seq<string>)
  {
    exists w :: w in words && (line == w || line == Strip(w))
  }

  lemma {:induction false} StripLeadingSpace(w: string)
    ensures Strip("" + " " + w) == Strip(w)
  {
    assert "" + " " + w == " " + w;
    TrimLeftDrops(" ", w, PySpace);
  }

  lemma {:induction false} WrapWordsFits(
    current: string, words: seq<string>, all: seq<string>, col: Column)
    requires forall w :: w in words ==> w in all
    requires current == "" || SingleWord(current, all) || !col.TooWide(current)
    ensures forall l :: l in WrapWords(current, words, col)
              ==> l == "" || SingleWord(l, all) || !col.TooWide(l)
    decreases |words|
  {
    if words != [] {
      var candidate := Strip(current + " " + words[0]);
      assert words[0] in all;
      if current != "" && col.TooWide(candidate) {
        WrapWordsFits(words[0], words[1..], all, col);
      } else {
        if current == "" {
          StripLeadingSpace(words[0]);
          assert SingleWord(candidate, all);
        }
        WrapWordsFits(candidate, words[1..], all, col);
      }
    }
  }

  /** Whatever the line, a printed line overflows only if it is one word of the input. */
  lemma {:induction false} WrapLineFits(line: string, col: Column)
    ensures forall l :: l in WrapLine(line, col)
              ==> l == "" || SingleWord(l, Split(line, " ")) || !Overflows(l, col)
  {
    WrapWordsFits("", Split(line, " "), Split(line, " "), col);
    forall l | l in WrapLine(line, col) ensures !col.TooWide(l) ==> !Overflows(l, col) {
      TooWideOverflows(l, col);
    }
  }

  /** Whatever the text, a printed line of more than one word does not overflow. */
  lemma {:induction false} WrappedFits(text: string, col: Column)
    ensures forall l :: l in Wrapped(text, col) && ' ' in l ==> !Overflows(l, col)
  {
    RawLinesFit(Split(text, "\n"), col);
  }

  lemma {:induction false} RawLinesFit(raw: seq<string>, col: Column)
    ensures forall l :: l in WrapLines(raw, col) && ' ' in l ==> !Overflows(l, col)
  {
    if raw != [] {
      forall l | l in WrapLine(raw[0], col) && ' ' in l ensures !Overflows(l, col) {
        WrapLineFits(raw[0], col);
        if SingleWord(l, Split(raw[0], " ")) {
          var w :| w in Split(raw[0], " ") && (l == w || l == Strip(w));
          SplitPartsAreClean(raw[0], " ");
          FindChar(w, ' ');
          StripLacks(w, ' ');
        }
      }
      RawLinesFit(raw[1..], col);
    }
  }

  lemma {:induction false} StripLacks(s: string, c: char)
    requires c !in s
    ensures c !in Strip(s)
  {
    TrimLeftLacks(s, c);
  }

  lemma {:induction false} TrimLeftLacks(s: string, c: char)
    requires c !in s
    ensures c !in TrimLeft(s, PySpace)
  {
    if s != "" && PySpace(s[0]) {
      TrimLeftLacks(s[1..], c);
    }
  }

  // ---------- every break is forced ----------

  predicate StartsWith(line: string, word: string)
  {
    line == word || Strip(word) <= line
  }

  /** The line would overflow with the word behind it, and the word begins the next line. */
  ghost predicate Forced(line: string, word: string, next: string, col: Column)
  {
    Overflows(Strip(line + " " + word), col) && StartsWith(next, word)
  }

  ghost predicate IsForced(line: string, next: string, words: seq<string>, col: Column)
  {
    exists w :: w in words && Forced(line, w, next, col)
  }

  lemma {:induction false} StripKeepsBeginning(current: string, word: string, next: string)
    requires StartsWith(current, word)
    ensures StartsWith(Strip(current + " " + next), word)
  {
    var all := current + " " + next;
    if current == word {
      StripOfLonger(word, " " + next);
      assert word + (" " + next) == all;
    } else {
      var begin := Strip(word);
      TrimIsUnpadded(word, PySpace);
      if begin != "" {
        StripOfBeginning(begin, all[|begin|..]);
        assert begin + all[|begin|..] == all;
      }
    }
  }

  /** Stripping a longer text keeps the stripped beginning. */
  lemma {:induction false} StripOfLonger(word: string, more: string)
    ensures Strip(word) <= Strip(word + more)
  {
    if word != "" {
      if PySpace(word[0]) {
        assert (word + more)[1..] == word[1..] + more;
        StripOfLonger(word[1..], more);
      } else {
        var begin := Strip(word);
        assert begin != "" by {
          FirstStays(word);
        }
        assert word + more == begin + (word[|begin|..] + more);
        StripOfBeginning(begin, word[|begin|..] + more);
      }
    }
  }

  lemma {:induction false} FirstStays(s: string)
    requires s != "" && !PySpace(s[0])
    ensures TrimRight(s, PySpace) != "" && Strip(s) != ""
  {
    if PySpace(s[|s| - 1]) {
      FirstStays(s[..|s| - 1]);
    }
  }

  lemma {:induction false} StripOfBeginning(begin: string, more: string)
    requires Unpadded(begin, PySpace)
    ensures begin <= Strip(begin + more)
    decreases |more|
  {
    var all := begin + more;
    assert TrimLeft(all, PySpace) == all;
    if more != "" && PySpace(more[|more| - 1]) {
      assert all[..|all| - 1] == begin + more[..|more| - 1];
      StripOfBeginning(begin, more[..|more| - 1]);
    }
  }

  ghost predicate AllForced(lines: seq<string>, words: seq<string>, col: Column)
  {
    forall i :: 0 <= i < |lines| - 1 ==> IsForced(lines[i], lines[i + 1], words, col)
  }

  lemma {:induction false} WrapWordsForced(current: string, words: seq<string>, all: seq<string>, col: Column,
                                           first: string)
    requires forall w :: w in words ==> w in all
    requires StartsWith(current, first)
    ensures AllForced(WrapWords(current, words, col), all, col)
    ensures StartsWith(WrapWords(current, words, col)[0], first)
    decreases |words|
  {
    if words != [] {
      var candidate := Strip(current + " " + words[0]);
      assert words[0] in all;
      if current != "" && col.TooWide(candidate) {
        WrapWordsForced(words[0], words[1..], all, col, words[0]);
        TooWideOverflows(candidate, col);
        var rest := WrapWords(words[0], words[1..], col);
        assert Forced(current, words[0], rest[0], col);
      } else {
        StripKeepsBeginning(current, first, words[0]);
        WrapWordsForced(candidate, words[1..], all, col, first);
      }
    }
  }

  /** Whatever the line, each break is forced: with a word of the line behind it the printed line would
      overflow, and the next printed line begins with that word. */
  lemma {:induction false} BreaksAreForced(line: string, col: Column)
    ensures AllForced(WrapLine(line, col), Split(line, " "), col)
  {
    WrapWordsForced("", Split(line, " "), Split(line, " "), col, "");
  }

  // ---------- regular lines: lossless and optimal ----------

  /** Non-empty words separated by single spaces: what the caller can check beforehand. */
  ghost predicate Regular(line: string)
  {
    forall w :: w in Split(line, " ") ==> Unpadded(w, PySpace)
  }

  function WordMeasure(col: Column): Measure<string>
  {
    Measure((w: string) => LineWidth(w) * col.size, 28 * col.size, 100 * col.width)
  }

  lemma {:induction false} LineWidthConcat(a: string, b: string)
    ensures LineWidth(a + b) == LineWidth(a) + LineWidth(b)
  {
    if a == [] {
      assert a + b == b;
    } else {
      assert (a + b)[1..] == a[1..] + b;
      LineWidthConcat(a[1..], b);
    }
  }

  lemma {:induction false} SpaceIsNarrow()
    ensures LineWidth(" ") == 28
  {
    assert NARROW[|NARROW| - 1] == ' ';
  }

  lemma {:induction false} WidthIsWeight(words: seq<string>, col: Column)
    requires words != []
    ensures LineWidth(Join(words, " ")) * col.size == Weight(words, WordMeasure(col))
  {
    if |words| > 1 {
      var tail := Join(words[1..], " ");
      WidthIsWeight(words[1..], col);
      SpaceIsNarrow();
      LineWidthConcat(words[0] + " ", tail);
      LineWidthConcat(words[0], " ");
      Distribute(LineWidth(words[0]), 28, LineWidth(tail), col.size);
    }
  }

  lemma {:induction false} Distribute(a: int, b: int, c: int, k: int)
    ensures (a + b + c) * k == a * k + b * k + c * k
  {
  }

  function Lines(groups: seq<seq<string>>): seq<string>
  {
    if groups == [] then [] else [Join(groups[0], " ")] + Lines(groups[1..])
  }

  lemma {:induction false} LinesLength(groups: seq<seq<string>>)
    ensures |Lines(groups)| == |groups|
  {
    if groups != [] {
      LinesLength(groups[1..]);
    }
  }

  lemma {:induction false} JoinOfUnpadded(words: seq<string>, sep: string)
    requires words != [] && forall w :: w in words ==> Unpadded(w, PySpace)
    ensures Unpadded(Join(words, sep), PySpace)
  {
    assert Unpadded(words[0], PySpace);
    if |words| > 1 {
      JoinOfUnpadded(words[1..], sep);
    }
  }

  /** On regular words the string loop is the generic greedy packing. */
  lemma {:induction false} WrapWordsIsPack(group: seq<string>, words: seq<string>, col: Column)
    requires group != []
    requires forall w :: w in group + words ==> Unpadded(w, PySpace)
    ensures WrapWords(Join(group, " "), words, col) == Lines(Pack(group, words, WordMeasure(col)))
    decreases |words|
  {
    if words == [] {
      assert Lines([group]) == [Join(group, " ")];
    } else {
      var w, rest := words[0], words[1..];
      assert w in group + words;
      assert forall v :: v in group + [w] ==> v in group + words;
      var candidate := Join(group, " ") + " " + w;
      JoinAppend(group, w, " ");
      JoinOfUnpadded(group + [w], " ");
      TrimUnpadded(candidate, PySpace);
      WidthIsWeight(group + [w], col);
      JoinOfUnpadded(group, " ");
      assert forall v :: v in rest ==> v in group + words;
      if Weight(group + [w], WordMeasure(col)) > WordMeasure(col).limit {
        WrapWordsIsPack([w], rest, col);
      } else {
        WrapWordsIsPack(group + [w], rest, col);
      }
    }
  }

  lemma {:induction false} WrapLineIsPack(line: string, col: Column)
    requires Regular(line)
    ensures var words := Split(line, " ");
            WrapLine(line, col) == Lines(Pack([words[0]], words[1..], WordMeasure(col)))
  {
    var words := Split(line, " ");
    assert words[0] in words;
    assert forall w :: w in [words[0]] + words[1..] ==> w in words;
    StripLeadingSpace(words[0]);
    TrimUnpadded(words[0], PySpace);
    WrapWordsIsPack([words[0]], words[1..], col);
  }

  lemma {:induction false} JoinOfLines(groups: seq<seq<string>>)
    requires forall g :: g in groups ==> |g| > 0
    ensures Join(Lines(groups), " ") == Join(Flatten(groups), " ")
  {
    if groups != [] {
      JoinOfLines(groups[1..]);
      LinesLength(groups[1..]);
      if |groups| == 1 {
        assert Flatten(groups) == groups[0];
      } else {
        assert |groups[0]| > 0 && |groups[1]| > 0;
        assert Flatten(groups[1..]) == groups[1] + Flatten(groups[2..]);
        JoinConcat(groups[0], Flatten(groups[1..]), " ");
        assert Lines(groups)[1..] == Lines(groups[1..]);
      }
    }
  }

  /** Joining the wrapped lines with spaces gives back a regular line. */
  lemma {:induction false} WrapIsLossless(line: string, col: Column)
    requires Regular(line)
    ensures Join(WrapLine(line, col), " ") == line
  {
    var words := Split(line, " ");
    var m := WordMeasure(col);
    WrapLineIsPack(line, col);
    PackIsPacking([words[0]], words[1..], m);
    assert [words[0]] + words[1..] == words;
    JoinOfLines(Pack([words[0]], words[1..], m));
    JoinSplit(line, " ");
  }

  /** A break of `line` at spaces into lines that fit or hold a single word. */
  ghost predicate IsBreak(other: seq<string>, line: string, col: Column)
  {
    other != [] && Join(other, " ") == line
    && forall l :: l in other ==> !Overflows(l, col) || ' ' !in l
  }

  function SplitAll(parts: seq<string>): seq<seq<string>>
  {
    if parts == [] then [] else [Split(parts[0], " ")] + SplitAll(parts[1..])
  }

  lemma {:induction false} SplitJoinSpace(parts: seq<string>)
    requires parts != []
    ensures Split(Join(parts, " "), " ") == Flatten(SplitAll(parts))
  {
    if |parts| == 1 {
      assert SplitAll(parts) == [Split(parts[0], " ")];
      assert Flatten(SplitAll(parts)) == Split(parts[0], " ") + Flatten(SplitAll(parts)[1..]);
    } else {
      SplitConcat(parts[0], Join(parts[1..], " "), ' ');
      SplitJoinSpace(parts[1..]);
      assert SplitAll(parts)[1..] == SplitAll(parts[1..]);
    }
  }

  lemma {:induction false} SplitAllAcceptable(parts: seq<string>, col: Column)
    requires forall l :: l in parts ==> !Overflows(l, col) || ' ' !in l
    ensures |SplitAll(parts)| == |parts|
    ensures forall g :: g in SplitAll(parts) ==> Acceptable(g, WordMeasure(col))
  {
    if parts != [] {
      SplitAllAcceptable(parts[1..], col);
      var g := Split(parts[0], " ");
      if ' ' !in parts[0] {
        FindChar(parts[0], ' ');
        assert g == [parts[0]];
      } else {
        WidthIsWeight(g, col);
        TooWideOverflows(parts[0], col);
        JoinSplit(parts[0], " ");
      }
    }
  }

  /** No break of a regular line into lines that fit or hold a single word has fewer lines. */
  lemma {:induction false} WrapIsOptimal(line: string, other: seq<string>, col: Column)
    requires Regular(line) && IsBreak(other, line, col)
    ensures |WrapLine(line, col)| <= |other|
  {
    var words := Split(line, " ");
    var m := WordMeasure(col);
    WrapLineIsPack(line, col);
    LinesLength(Pack([words[0]], words[1..], m));
    SplitJoinSpace(other);
    SplitAllAcceptable(other, col);
    assert [] + [words[0]] + words[1..] == words;
    GreedyIsOptimal([], [words[0]], words[1..], SplitAll(other), m);
  }

  /** The greedy output is itself such a break, so it is a shortest one. */
  lemma {:induction false} WrapIsBreak(line: string, col: Column)
    requires Regular(line)
    ensures IsBreak(WrapLine(line, col), line, col)
  {
    WrapIsLossless(line, col);
    forall l | l in WrapLine(line, col) ensures !Overflows(l, col) || ' ' !in l {
      WrapLineFits(line, col);
      assert Unpadded(l, PySpace) by {
        LinesUnpadded(line, col);
      }
      if SingleWord(l, Split(line, " ")) {
        var w :| w in Split(line, " ") && (l == w || l == Strip(w));
        TrimUnpadded(w, PySpace);
        SplitPartsAreClean(line, " ");
        FindChar(w, ' ');
      }
    }
  }

  lemma {:induction false} LinesUnpadded(line: string, col: Column)
    requires Regular(line)
    ensures forall l :: l in WrapLine(line, col) ==> Unpadded(l, PySpace)
  {
    var words := Split(line, " ");
    var groups := Pack([words[0]], words[1..], WordMeasure(col));
    WrapLineIsPack(line, col);
    PackIsPacking([words[0]], words[1..], WordMeasure(col));
    assert [words[0]] + words[1..] == words;
    GroupLinesUnpadded(groups);
  }

  lemma {:induction false} GroupLinesUnpadded(groups: seq<seq<string>>)
    requires forall g :: g in groups ==> |g| > 0
    requires forall w :: w in Flatten(groups) ==> Unpadded(w, PySpace)
    ensures forall l :: l in Lines(groups) ==> Unpadded(l, PySpace)
  {
    if groups != [] {
      assert Flatten(groups) == groups[0] + Flatten(groups[1..]);
      GroupLinesUnpadded(groups[1..]);
      JoinOfUnpadded(groups[0], " ");
    }
  }

  // ---------- what irregular spacing does ----------

  /** An empty word, which a second space in a row produces, is dropped while the current line
      fits, and closes the current line when that line is a single word that overflows. */
  lemma {:induction false} EmptyWord(current: string, words: seq<string>, col: Column)
    requires Unpadded(current, PySpace)
    ensures WrapWords(current, [""] + words, col)
         == if Overflows(current, col) then [current] + WrapWords("", words, col)
            else WrapWords(current, words, col)
  {
    assert ([""] + words)[1..] == words;
    TooWideOverflows(current, col);
    StripTrailingSpace(current);
  }

  lemma {:induction false} StripTrailingSpace(w: string)
    requires Unpadded(w, PySpace)
    ensures Strip(w + " " + "") == w
  {
    var padded := w + " " + "";
    assert padded[..|w|] == w;
    assert TrimLeft(padded, PySpace) == padded;
    assert TrimRight(padded, PySpace) == TrimRight(w, PySpace);
    TrimUnpadded(w, PySpace);
  }

  /** A word that overflows on its own and is followed by a space costs an extra, empty line. */
  lemma {:induction false} TrailingSpaceAddsEmptyLine(word: string, col: Column)
    requires Unpadded(word, PySpace) && ' ' !in word && Overflows(word, col)
    ensures WrapLine(word + " ", col) == [word, ""]
  {
    CharSplittable(word, ' ');
    SplitFirst(word, " ", "");
    assert word + " " + "" == word + " ";
    assert Split("", " ") == [""];
    StripLeadingSpace(word);
    TrimUnpadded(word, PySpace);
    TooWideOverflows(word, col);
    EmptyWord(word, [], col);
    assert [""] + [] == [""] && [word, ""] == [word] + [""];
    assert [word, ""][1..] == [""];
    assert WrapWords("", [], col) == [""];
  }
}
