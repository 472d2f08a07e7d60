/** Literal strings of a PDF file: section 7.3.4.2 of ISO 32000-1. A byte is a char below 256. */
module PdfString {
  import opened Wrappers
  import opened Text

  // ---------- WinAnsi (code page 1252) ----------

  /** The characters of bytes 0x80 to 0x9F; NUL marks the five bytes that encode nothing. */
  const WIN_HIGH := "\U{20AC}\0\U{201A}\U{192}\U{201E}\U{2026}\U{2020}\U{2021}" +
                    "\U{2C6}\U{2030}\U{160}\U{2039}\U{152}\0\U{17D}\0" +
                    "\0\U{2018}\U{2019}\U{201C}\U{201D}\U{2022}\U{2013}\U{2014}" +
                    "\U{2DC}\U{2122}\U{161}\U{203A}\U{153}\0\U{17E}\U{178}"

  /** The index of `c` in `s`, or |s|. */
  function IndexOf(s: string, c: char): (i: nat)
    ensures i <= |s| && (i < |s| ==> s[i] == c)
  {
    if s == [] || s[0] == c then 0 else 1 + IndexOf(s[1..], c)
  }

  /** The byte `c` is encoded as; unencodable characters become a question mark. */
  function WinByte(c: char): char
  {
    if c < '\U{80}' || '\U{A0}' <= c <= '\U{FF}' then c
    else
      var i := IndexOf(WIN_HIGH, c);
      if i < 32 then (0x80 + i) as char else '?'
  }

  function WinBytes(text: string): (b: string)
    ensures |b| == |text|
    ensures forall i :: 0 <= i < |text| ==> b[i] == WinByte(text[i])
  {
    seq(|text|, i requires 0 <= i < |text| => WinByte(text[i]))
  }

  /** The character that a byte stands for, if it stands for any. */
  function WinChar(b: char): Option<char>
    requires b < '\U{100}'
  {
    if b < '\U{80}' || '\U{A0}' <= b then Some(b)
    else if WIN_HIGH[b as int - 0x80] == '\0' then None
    else Some(WIN_HIGH[b as int - 0x80])
  }

  lemma {:induction false} IndexOfIsFirst(s: string, c: char)
    ensures IndexOf(s, c) < |s| <==> c in s
  {
    if s != [] && s[0] != c {
      IndexOfIsFirst(s[1..], c);
    }
  }

  /** A character that some byte stands for is encoded as a byte that stands for it, and any other one as a
      question mark. */
  lemma {:induction false} WinByteDecodes(c: char)
    ensures WinByte(c) < '\U{100}'
    ensures if exists b: char :: b < '\U{100}' && WinChar(b) == Some(c) then WinChar(WinByte(c)) == Some(c)
            else WinByte(c) == '?'
  {
    assert |WIN_HIGH| == 32;
    IndexOfIsFirst(WIN_HIGH, c);
    if !(c < '\U{80}' || '\U{A0}' <= c <= '\U{FF}') {
      if c in WIN_HIGH {
        var b := (0x80 + IndexOf(WIN_HIGH, c)) as char;
        assert WinChar(b) == Some(c);
      }
    } else {
      assert WinChar(c) == Some(c);
    }
  }

  /** Only a character that is below 0x80 itself, or has become a question mark, is encoded as an
      ASCII byte. */
  lemma {:induction false} WinByteIsAscii(c: char)
    ensures WinByte(c) < '\U{80}' ==> WinByte(c) == c || WinByte(c) == '?'
  {
  }

  // ---------- escaping ----------

  /** The three replacements, in the order of the code. */
  function Escape(b: string): string
  {
    Replace(Replace(Replace(b, "\\", "\\\\"), "(", "\\("), ")", "\\)")
  }

  /** What one byte is printed as. */
  function EscapeByte(c: char): string
  {
    if c == '\\' || c == '(' || c == ')' then ['\\', c] else [c]
  }

  function EscapeBytes(b: string): string
  {
    if b == "" then "" else EscapeByte(b[0]) + EscapeBytes(b[1..])
  }

  /** Substitution of single characters. */
  function Substitute(s: string, c: char, sub: string): string
  {
    if s == "" then "" else (if s[0] == c then sub else [s[0]]) + Substitute(s[1..], c, sub)
  }

  lemma {:induction false} SubstituteConcat(a: string, b: string, c: char, sub: string)
    ensures Substitute(a + b, c, sub) == Substitute(a, c, sub) + Substitute(b, c, sub)
  {
    if a == "" {
      assert a + b == b;
    } else {
      assert (a + b)[1..] == a[1..] + b;
      SubstituteConcat(a[1..], b, c, sub);
    }
  }

  lemma {:induction false} SubstituteAbsent(s: string, c: char, sub: string)
    requires c !in s
    ensures Substitute(s, c, sub) == s
  {
    if s != "" {
      SubstituteAbsent(s[1..], c, sub);
    }
  }

  lemma {:induction false} ReplaceIsSubstitute(s: string, c: char, sub: string)
    ensures Replace(s, [c], sub) == Substitute(s, c, sub)
    decreases |s|
  {
    FindChar(s, c);
    match Find(s, [c], 0)
    case None => SubstituteAbsent(s, c, sub);
    case Some(i) =>
      ReplaceIsSubstitute(s[i + 1..], c, sub);
      SubstituteFirst(s[..i], s[i + 1..], c, sub);
  }

  lemma {:induction false} SubstituteFirst(head: string, tail: string, c: char, sub: string)
    requires c !in head
    ensures Substitute(head + [c] + tail, c, sub) == head + sub + Substitute(tail, c, sub)
  {
    SubstituteAbsent(head, c, sub);
    SubstituteConcat(head + [c], tail, c, sub);
    SubstituteConcat(head, [c], c, sub);
    assert Substitute([c], c, sub) == sub;
  }

  /** The order of the replacements matters: backslashes first prints every byte on its own. */
  lemma {:induction false} EscapeIsBytewise(b: string)
    ensures Escape(b) == EscapeBytes(b)
  {
    var s1 := Substitute(b, '\\', "\\\\");
    ReplaceIsSubstitute(b, '\\', "\\\\");
    ReplaceIsSubstitute(s1, '(', "\\(");
    ReplaceIsSubstitute(Substitute(s1, '(', "\\("), ')', "\\)");
    ThreeSubstitutions(b);
  }

  lemma {:induction false} ThreeSubstitutions(b: string)
    ensures Substitute(Substitute(Substitute(b, '\\', "\\\\"), '(', "\\("), ')', "\\)") == EscapeBytes(b)
  {
    if b != "" {
      var rest := Substitute(b[1..], '\\', "\\\\");
      var first := if b[0] == '\\' then "\\\\" else [b[0]];
      ThreeSubstitutions(b[1..]);
      SubstituteConcat(first, rest, '(', "\\(");
      SubstituteConcat(Substitute(first, '(', "\\("), Substitute(rest, '(', "\\("), ')', "\\)");
      OneByte(b[0]);
    }
  }

  lemma {:induction false} OneByte(c: char)
    ensures Substitute(Substitute(if c == '\\' then "\\\\" else [c], '(', "\\("), ')', "\\)") == EscapeByte(c)
  {
    if c == '\\' {
      SubstituteAbsent("\\\\", '(', "\\(");
      SubstituteAbsent("\\\\", ')', "\\)");
    } else if c == '(' {
      assert Substitute("(", '(', "\\(") == "\\(";
      SubstituteAbsent("\\(", ')', "\\)");
    } else {
      SubstituteAbsent([c], '(', "\\(");
      if c == ')' {
        assert Substitute(")", ')', "\\)") == "\\)";
      } else {
        SubstituteAbsent([c], ')', "\\)");
      }
    }
  }

  // ---------- reading a literal string ----------

  predicate IsOctal(c: char)
  {
    '0' <= c <= '7'
  }

  /** The value of the up to `max` octal digits at position i, and the position behind them. */
  function ReadOctal(s: string, i: nat, max: nat, acc: nat): (r: (nat, nat))
    requires i <= |s|
    ensures i <= r.1 <= |s|
    decreases max
  {
    if max > 0 && i < |s| && IsOctal(s[i]) then ReadOctal(s, i + 1, max - 1, 8 * acc + DigitValue(s[i]))
    else (acc, i)
  }

  /** The position behind the end-of-line marker at i, which is CR, LF or CR LF. */
  function SkipEol(s: string, i: nat): (j: nat)
    requires i < |s| && (s[i] == '\r' || s[i] == '\n')
    ensures i < j <= |s|
  {
    if s[i] == '\r' && i + 1 < |s| && s[i + 1] == '\n' then i + 2 else i + 1
  }

  /** What the escape sequence stands for whose backslash is at i, and the position behind it. */
  function ReadEscape(s: string, i: nat): (r: (string, nat))
    requires i + 1 < |s|
    ensures i < r.1 <= |s|
  {
    var c := s[i + 1];
    if c == 'n' then ("\n", i + 2)
    else if c == 'r' then ("\r", i + 2)
    else if c == 't' then ("\t", i + 2)
    else if c == 'b' then ("\U{8}", i + 2)
    else if c == 'f' then ("\U{C}", i + 2)
    else if c == '\r' || c == '\n' then ("", SkipEol(s, i + 1))
    else if IsOctal(c) then
      var (value, j) := ReadOctal(s, i + 2, 2, DigitValue(c));
      ([(value % 256) as char], j)
    else ([c], i + 2)
  }

  /** The string whose opening parenthesis is behind us, inside `depth` unescaped parentheses, and
      the position behind its closing parenthesis. */
  function ReadLiteral(s: string, i: nat, depth: nat): Option<(string, nat)>
    requires i <= |s|
    decreases |s| - i
  {
    if i == |s| then None
    else if s[i] == ')' && depth == 0 then Some(("", i + 1))
    else if s[i] == '\\' && i + 1 == |s| then None
    else
      var (first, j) := if s[i] == '\\' then ReadEscape(s, i)
                        else if s[i] == '\r' || s[i] == '\n' then ("\n", SkipEol(s, i))
                        else ([s[i]], i + 1);
      var depth' := if s[i] == '(' then depth + 1 else if s[i] == ')' then depth - 1 else depth;
      var (rest, end) :- ReadLiteral(s, j, depth');
      Some((first + rest, end))
  }

  /** End-of-line markers inside a literal string are read as a line feed. */
  function NormalizeEol(b: string): string
    decreases |b|
  {
    if b == "" then ""
    else if b[0] == '\r' then "\n" + NormalizeEol(if |b| > 1 && b[1] == '\n' then b[2..] else b[1..])
    else [b[0]] + NormalizeEol(b[1..])
  }

  lemma {:induction false} NormalizeEolLength(b: string)
    ensures |NormalizeEol(b)| <= |b|
    decreases |b|
  {
    if b != "" {
      NormalizeEolLength(b[1..]);
      if |b| > 1 {
        NormalizeEolLength(b[2..]);
      }
    }
  }

  /** Normalising changes a string exactly when it holds a carriage return. */
  lemma {:induction false} NormalizeEolIdentity(b: string)
    ensures NormalizeEol(b) == b <==> '\r' !in b
  {
    if b != "" {
      NormalizeEolIdentity(b[1..]);
      if b[0] == '\r' {
        assert NormalizeEol(b)[0] == '\n';
      } else {
        assert NormalizeEol(b)[1..] == NormalizeEol(b[1..]);
      }
    }
  }

  lemma {:induction false} EscapeStartsWith(b: string)
    requires b != ""
    ensures EscapeBytes(b) != "" && (EscapeBytes(b)[0] == '\n' <==> b[0] == '\n')
  {
  }

  /** One character, escape sequence or end-of-line marker, and then the rest of the string. */
  lemma {:induction false} ReadFirst(s: string, i: nat, first: string, j: nat, rest: string, end: nat)
    requires i < |s| && i < j <= |s| && s[i] != '(' && s[i] != ')'
    requires if s[i] == '\\' then i + 1 < |s| && s[i + 1] in "\\()" && first == [s[i + 1]] && j == i + 2
             else if s[i] == '\r' || s[i] == '\n' then first == "\n" && j == SkipEol(s, i)
             else first == [s[i]] && j == i + 1
    requires ReadLiteral(s, j, 0) == Some((rest, end))
    ensures ReadLiteral(s, i, 0) == Some((first + rest, end))
  {
  }

  /** A printed piece stands for `first`: an escaped byte, a plain one, or an end-of-line marker that
      what follows does not continue. */
  predicate StandsFor(piece: string, rest: string, first: string)
  {
    if |piece| == 2 && piece[0] == '\\' then piece[1] in "\\()" && first == [piece[1]]
    else if piece == "\r\n" then first == "\n"
    else if piece == "\r" then first == "\n" && !("\n" <= rest)
    else if piece == "\n" then first == "\n"
    else |piece| == 1 && piece[0] !in "\\()" && first == piece
  }

  lemma {:induction false} ReadPiece(pre: string, piece: string, rest: string, post: string, first: string,
                                     tail: string, end: nat)
    requires StandsFor(piece, rest, first)
    requires ReadLiteral(pre + piece + rest + ")" + post, |pre| + |piece|, 0) == Some((tail, end))
    ensures ReadLiteral(pre + (piece + rest) + ")" + post, |pre|, 0) == Some((first + tail, end))
  {
    RegroupEscaped(pre, piece, rest, post);
    ReadFirst(pre + (piece + rest) + ")" + post, |pre|, first, |pre| + |piece|, tail, end);
  }

  lemma {:induction false} ByteStandsForItself(c: char, rest: string)
    requires c == '\r' ==> !("\n" <= rest)
    ensures StandsFor(EscapeByte(c), rest, if c == '\r' then "\n" else [c])
  {
  }

  ghost predicate ReadsBack(pre: string, b: string, post: string)
  {
    ReadLiteral(pre + EscapeBytes(b) + ")" + post, |pre|, 0) == Some((NormalizeEol(b), |pre| + |EscapeBytes(b)| + 1))
  }

  lemma {:induction false} ByteReadsBack(pre: string, b: string, post: string)
    requires b != "" && !("\r\n" <= b) && ReadsBack(pre + EscapeByte(b[0]), b[1..], post)
    ensures ReadsBack(pre, b, post)
  {
    if |b| > 1 {
      EscapeStartsWith(b[1..]);
    }
    ByteStandsForItself(b[0], EscapeBytes(b[1..]));
    ReadPiece(pre, EscapeByte(b[0]), EscapeBytes(b[1..]), post, if b[0] == '\r' then "\n" else [b[0]],
              NormalizeEol(b[1..]), |pre| + |EscapeBytes(b)| + 1);
  }

  lemma {:induction false} CrLfReadsBack(pre: string, b: string, post: string)
    requires |b| > 1 && b[0] == '\r' && b[1] == '\n' && ReadsBack(pre + "\r\n", b[2..], post)
    ensures ReadsBack(pre, b, post)
  {
    EscapeCrLf(b);
    ReadPiece(pre, "\r\n", EscapeBytes(b[2..]), post, "\n", NormalizeEol(b[2..]), |pre| + |EscapeBytes(b)| + 1);
  }

  /** Reading an escaped string back gives its bytes with end-of-line markers normalised. */
  lemma {:induction false} ReadEscaped(pre: string, b: string, post: string)
    ensures ReadsBack(pre, b, post)
    decreases |b|
  {
    if b == "" {
      assert (pre + EscapeBytes(b) + ")" + post)[|pre|] == ')';
    } else if |b| > 1 && b[0] == '\r' && b[1] == '\n' {
      ReadEscaped(pre + "\r\n", b[2..], post);
      CrLfReadsBack(pre, b, post);
    } else {
      ReadEscaped(pre + EscapeByte(b[0]), b[1..], post);
      ByteReadsBack(pre, b, post);
    }
  }

  lemma {:induction false} EscapeCrLf(b: string)
    requires |b| > 1 && b[0] == '\r' && b[1] == '\n'
    ensures EscapeBytes(b) == "\r\n" + EscapeBytes(b[2..])
  {
    assert b[1..][1..] == b[2..];
    assert "\r" + ("\n" + EscapeBytes(b[2..])) == "\r\n" + EscapeBytes(b[2..]);
  }

  lemma {:induction false} RegroupEscaped(pre: string, piece: string, rest: string, post: string)
    requires piece != ""
    ensures var s := pre + (piece + rest) + ")" + post;
            s == (pre + piece) + rest + ")" + post && s[|pre|] == piece[0]
            && (|piece| > 1 ==> s[|pre| + 1] == piece[1])
            && (|piece| == 1 ==> s[|pre| + 1] == if rest == "" then ')' else rest[0])
  {
  }

  /** A drawn text reads back as its WinAnsi bytes with end-of-line markers normalised. */
  lemma {:induction false} TextReads(pre: string, text: string, post: string)
    ensures ReadLiteral(pre + Escape(WinBytes(text)) + ")" + post, |pre|, 0)
         == Some((NormalizeEol(WinBytes(text)), |pre| + |Escape(WinBytes(text))| + 1))
  {
    EscapeIsBytewise(WinBytes(text));
    ReadEscaped(pre, WinBytes(text), post);
  }

  /** Normalising loses something of a text exactly when the text holds a carriage return. */
  lemma {:induction false} OnlyReturnsAreLost(text: string)
    ensures NormalizeEol(WinBytes(text)) == WinBytes(text) <==> '\r' !in text
  {
    var b := WinBytes(text);
    NormalizeEolIdentity(b);
    if '\r' in b {
      var k :| 0 <= k < |b| && b[k] == '\r';
      WinByteIsAscii(text[k]);
    }
    if '\r' in text {
      var k :| 0 <= k < |text| && text[k] == '\r';
      assert b[k] == '\r';
    }
  }

  /** A drawn text reads back as its WinAnsi bytes exactly when it holds no carriage return. */
  lemma {:induction false} TextReadsBack(pre: string, text: string, post: string)
    ensures ReadLiteral(pre + Escape(WinBytes(text)) + ")" + post, |pre|, 0).Some?
    ensures ReadLiteral(pre + Escape(WinBytes(text)) + ")" + post, |pre|, 0).value.0 == WinBytes(text)
            <==> '\r' !in text
  {
    TextReads(pre, text, post);
    OnlyReturnsAreLost(text);
  }
}
