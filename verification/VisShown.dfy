/** What a reader of the finished markdown sees in the place of a chart block. */
module VisShown {
  import opened Wrappers
  import opened VisFlint

  /** An inline drawing, an image with its alternative text, or a code block with the reason. */
  datatype Sight = Drawing(svg: string) | Image(base64: string, alt: string) | Code(reason: string, code: string)

  const DIV := "<div class=\"vis-flint-chart\">"
  const DIV_END := "</div>"
  const IMG := "<img src=\"data:image/png;base64,"
  const ALT := "\" alt=\""
  const IMG_END := "\" class=\"vis-flint-chart\" />"
  const PARSE := "```vis-flint (parse error)\n"
  const RENDER := "```vis-flint (render failed)\n"
  const CODE_END := "\n```"

  /** What stands between a beginning and an end. */
  function Between(s: string, begin: string, end: string): Option<string>
  {
    if |begin| + |end| <= |s| && begin <= s && s[|s| - |end|..] == end then Some(s[|begin|..|s| - |end|]) else None
  }

  function ReadImage(inside: string): Option<Sight>
  {
    var i :- Text.Find(inside, ALT, 0);
    Some(Image(inside[..i], inside[i + |ALT|..]))
  }

  function ReadSight(s: string): Option<Sight>
  {
    var div, img := Between(s, DIV, DIV_END), Between(s, IMG, IMG_END);
    var unparsed, failed := Between(s, PARSE, CODE_END), Between(s, RENDER, CODE_END);
    if div.Some? then Some(Drawing(div.value))
    else if img.Some? then ReadImage(img.value)
    else if unparsed.Some? then Some(Code("parse error", unparsed.value))
    else if failed.Some? then Some(Code("render failed", failed.value))
    else None
  }

  /** What a rendered block should show. */
  function Wanted(raw: string, r: Rendering): Sight
  {
    match r
    case Svg(svg) => Drawing(svg)
    case Png(base64, title) => Image(base64, title)
    case ParseError => Code("parse error", raw)
    case RenderFailed => Code("render failed", raw)
  }

  lemma {:induction false} BetweenReads(begin: string, inside: string, end: string)
    ensures Between(begin + inside + end, begin, end) == Some(inside)
  {
    var s := begin + inside + end;
    assert s[|s| - |end|..] == end && s[|begin|..|s| - |end|] == inside;
  }

  /** The four beginnings differ within their first sixteen characters. */
  lemma {:induction false} BeginningsDiffer(s: string)
    ensures DIV <= s ==> !(IMG <= s) && !(PARSE <= s) && !(RENDER <= s)
    ensures IMG <= s ==> !(PARSE <= s) && !(RENDER <= s)
    ensures PARSE <= s ==> !(RENDER <= s)
  {
    assert DIV[1] == 'd' && IMG[1] == 'i';
    assert PARSE[1] == '`' && RENDER[1] == '`' && PARSE[14] == 'p' && RENDER[14] == 'r';
    assert DIV <= s ==> s[1] == DIV[1];
    assert IMG <= s ==> s[1] == IMG[1];
    assert PARSE <= s ==> s[1] == PARSE[1] && s[14] == PARSE[14];
    assert RENDER <= s ==> s[1] == RENDER[1] && s[14] == RENDER[14];
  }

  lemma {:induction false} ImageReads(base64: string, title: string)
    ensures ReadImage(base64 + ALT + title) == Some(Image(base64, title)) <==> Text.Splittable(base64, ALT)
  {
    var s := base64 + ALT + title;
    assert s[|base64|..|base64| + |ALT|] == ALT && Text.OccursAt(s, ALT, |base64|);
    forall j | 0 <= j < |base64| ensures Text.OccursAt(s, ALT, j) <==> Text.OccursAt(base64 + ALT, ALT, j) {
      assert s[j..j + |ALT|] == (base64 + ALT)[j..j + |ALT|];
    }
    var i := Text.Find(s, ALT, 0);
    if Text.Splittable(base64, ALT) {
      assert i == Some(|base64|);
      assert s[..|base64|] == base64 && s[|base64| + |ALT|..] == title;
    }
  }

  /** Data without quotes, as base64 is, are read in any case. */
  lemma {:induction false} NoQuotesIsSplittable(base64: string)
    requires '"' !in base64
    ensures Text.Splittable(base64, ALT)
  {
    forall j | 0 <= j < |base64| ensures !Text.OccursAt(base64 + ALT, ALT, j) {
      Text.OccursChar(base64 + ALT, ALT, j, 0);
      assert (base64 + ALT)[j] == base64[j];
    }
  }

  /** Every rendered block shows its drawing, its image with the chart's type, or its own code and the reason; for
      an image this holds exactly if the encoded data do not run into the quote behind them. */
  lemma {:induction false} BlockShows(raw: string, r: Rendering)
    ensures ReadSight(Replacement(raw, r)) == Some(Wanted(raw, r)) <==> (r.Png? ==> Text.Splittable(r.base64, ALT))
  {
    var s := Replacement(raw, r);
    BeginningsDiffer(s);
    match r
    case Svg(svg) => BetweenReads(DIV, svg, DIV_END);
    case Png(base64, title) =>
      ImgInParts(base64, title);
      BetweenReads(IMG, base64 + ALT + title, IMG_END);
      ImageReads(base64, title);
    case ParseError => BetweenReads(PARSE, raw, CODE_END);
    case RenderFailed => BetweenReads(RENDER, raw, CODE_END);
  }

  lemma {:induction false} ImgInParts(base64: string, title: string)
    ensures Replacement("", Png(base64, title)) == IMG + (base64 + ALT + title) + IMG_END
  {
  }
}
