/** Chart blocks inside an answer's markdown: finding them and putting rendered charts in their place. */
module VisFlint {
  import opened Wrappers
  import Text

  const OPENING := "```vis-flint\n"
  const CLOSING := "```"

  /** A block from start to end, holding `raw` between its fences. */
  datatype Block = Block(raw: string, start: nat, end: nat)

  // ---------- what the pattern matches ----------

  /** The pattern matches from s to e: an opening fence, and the nearest closing fence behind it. */
  ghost predicate Matches(text: string, s: nat, e: nat)
  {
    Text.OccursAt(text, OPENING, s) && s + |OPENING| + |CLOSING| <= e && Text.OccursAt(text, CLOSING, e - |CLOSING|)
    && forall k :: s + |OPENING| <= k < e - |CLOSING| ==> !Text.OccursAt(text, CLOSING, k)
  }

  /** The leftmost match at or behind a position, if any. */
  function NextBlock(text: string, from: nat): (r: Option<Block>)
    ensures r.Some? ==> from <= r.value.start < r.value.end <= |text|
  {
    match Text.Find(text, OPENING, from)
    case None => None
    case Some(s) =>
      match Text.Find(text, CLOSING, s + |OPENING|)
      case None => None
      case Some(k) => Some(Block(Text.Strip(text[s + |OPENING|..k]), s, k + |CLOSING|))
  }

  function BlocksFrom(text: string, from: nat): seq<Block>
    decreases |text| - from
  {
    match NextBlock(text, from)
    case None => []
    case Some(b) => [b] + BlocksFrom(text, b.end)
  }

  method ParseVisFlintBlocks(text: string) returns (blocks: seq<Block>)
    ensures blocks == BlocksFrom(text, 0)
  {
    blocks := [];
    var next := NextBlock(text, 0);
    ghost var from := 0;
    while next.Some?
      invariant next == NextBlock(text, from) && blocks + BlocksFrom(text, from) == BlocksFrom(text, 0)
      decreases |text| - from
    {
      assert BlocksFrom(text, from) == [next.value] + BlocksFrom(text, next.value.end);
      assert blocks + ([next.value] + BlocksFrom(text, next.value.end))
          == (blocks + [next.value]) + BlocksFrom(text, next.value.end);
      blocks := blocks + [next.value];
      from := next.value.end;
      next := NextBlock(text, next.value.end);
    }
  }

  // ---------- rendering ----------

  /** What becomes of a block's content: it is no JSON, or it is rendered one way or the other, or not at all. */
  datatype Rendering = ParseError | Svg(svg: string) | Png(base64: string, title: string) | RenderFailed

  function Replacement(raw: string, r: Rendering): string
  {
    match r
    case ParseError => "```vis-flint (parse error)\n" + raw + "\n```"
    case Svg(svg) => "<div class=\"vis-flint-chart\">" + svg + "</div>"
    case Png(base64, title) =>
      "<img src=\"data:image/png;base64," + base64 + "\" alt=\"" + title + "\" class=\"vis-flint-chart\" />"
    case RenderFailed => "```vis-flint (render failed)\n" + raw + "\n```"
  }

  /** The text from a position on, with each block replaced. */
  function Spliced(text: string, from: nat, blocks: seq<Block>, with: seq<string>): string
    requires Fit(text, from, blocks) && |with| == |blocks|
    decreases blocks
  {
    if blocks == [] then text[from..]
    else text[from..blocks[0].start] + with[0] + Spliced(text, blocks[0].end, blocks[1..], with[1..])
  }

  /** Blocks within the text, in order, not overlapping. */
  ghost predicate Fit(text: string, from: nat, blocks: seq<Block>)
    decreases blocks
  {
    if blocks == [] then from <= |text|
    else from <= blocks[0].start < blocks[0].end <= |text| && Fit(text, blocks[0].end, blocks[1..])
  }

  function Replacements(blocks: seq<Block>, render: string -> Rendering): (r: seq<string>)
    ensures |r| == |blocks|
  {
    if blocks == [] then []
    else [Replacement(blocks[0].raw, render(blocks[0].raw))] + Replacements(blocks[1..], render)
  }

  method RenderVisFlintBlocks(text: string, render: string -> Rendering) returns (result: string)
    ensures Fit(text, 0, BlocksFrom(text, 0))
    ensures result == Spliced(text, 0, BlocksFrom(text, 0), Replacements(BlocksFrom(text, 0), render))
  {
    var blocks := ParseVisFlintBlocks(text);
    BlocksFit(text, 0);
    if blocks == [] {
      assert text[0..] == text;
      return text;
    }
    var parts := "";
    var lastEnd: nat := 0;
    for i := 0 to |blocks|
      invariant lastEnd <= |text| && Fit(text, lastEnd, blocks[i..])
      invariant parts + Spliced(text, lastEnd, blocks[i..], Replacements(blocks[i..], render))
             == Spliced(text, 0, blocks, Replacements(blocks, render))
    {
      var b := blocks[i];
      SplicedUnrolled(text, lastEnd, blocks, i, render, parts);
      parts := parts + text[lastEnd..b.start];
      parts := parts + Replacement(b.raw, render(b.raw));
      lastEnd := b.end;
    }
    result := parts + text[lastEnd..];
    assert blocks[|blocks|..] == [];
  }

  lemma {:induction false} SplicedUnrolled(text: string, lastEnd: nat, blocks: seq<Block>, i: nat,
                                           render: string -> Rendering, parts: string)
    requires i < |blocks| && Fit(text, lastEnd, blocks[i..])
    ensures var b := blocks[i];
            lastEnd <= b.start < b.end <= |text| && Fit(text, b.end, blocks[i + 1..])
            && parts + Spliced(text, lastEnd, blocks[i..], Replacements(blocks[i..], render))
               == parts + text[lastEnd..b.start] + Replacement(b.raw, render(b.raw))
                  + Spliced(text, b.end, blocks[i + 1..], Replacements(blocks[i + 1..], render))
  {
    var b, rest, with := blocks[i], blocks[i + 1..], Replacements(blocks[i + 1..], render);
    assert blocks[i..][1..] == rest;
    assert Replacements(blocks[i..], render)[1..] == with;
    RegroupParts(parts, text[lastEnd..b.start], Replacement(b.raw, render(b.raw)), Spliced(text, b.end, rest, with));
  }

  lemma {:induction false} RegroupParts(a: string, b: string, c: string, d: string)
    ensures a + (b + c + d) == a + b + c + d
  {
  }

  // ---------- the blocks found are the matches of the pattern ----------

  lemma {:induction false} BlocksFit(text: string, from: nat)
    requires from <= |text|
    ensures Fit(text, from, BlocksFrom(text, from))
    decreases |text| - from
  {
    var next := NextBlock(text, from);
    if next.Some? {
      BlocksFit(text, next.value.end);
    }
  }

  /** A block begins with three backticks, its name and a newline, and ends with three backticks. */
  lemma {:induction false} FencesAreMarkdown()
    ensures OPENING == "```vis-flint\n" && CLOSING == "```"
  {
  }

  /** The block found next is a match, nothing before it is, and if none is found there is none. */
  lemma {:induction false} NextIsLeftmostMatch(text: string, from: nat)
    ensures var r := NextBlock(text, from);
            (r.Some? ==> Matches(text, r.value.start, r.value.end)
                         && r.value.raw == Text.Strip(text[r.value.start + |OPENING|..r.value.end - |CLOSING|]))
            && forall s, e :: from <= s && Matches(text, s, e) ==>
                 r.Some? && (r.value.start < s || (r.value.start == s && r.value.end == e))
  {
    var r := NextBlock(text, from);
    forall s, e | from <= s && Matches(text, s, e)
      ensures r.Some? && (r.value.start < s || (r.value.start == s && r.value.end == e))
    {
      var first := Text.Find(text, OPENING, from);
      assert first.Some? && first.value <= s;
      var close := Text.Find(text, CLOSING, first.value + |OPENING|);
      assert close.Some?;
    }
  }

  ghost predicate Outside(blocks: seq<Block>, s: nat)
  {
    forall i :: 0 <= i < |blocks| ==> s < blocks[i].start || s >= blocks[i].end
  }

  /** Every block is a match of the pattern, and no match begins outside the blocks. */
  lemma {:induction false} BlocksAreTheMatches(text: string, from: nat)
    ensures forall b :: b in BlocksFrom(text, from) ==> Matches(text, b.start, b.end)
    ensures forall s, e :: from <= s && Outside(BlocksFrom(text, from), s) ==> !Matches(text, s, e)
    decreases |text| - from
  {
    NextIsLeftmostMatch(text, from);
    var next := NextBlock(text, from);
    if next.Some? {
      var b := next.value;
      var rest := BlocksFrom(text, b.end);
      BlocksAreTheMatches(text, b.end);
      forall s, e | from <= s && Outside(BlocksFrom(text, from), s) ensures !Matches(text, s, e) {
        OutsideFirst(b, rest, s);
      }
    }
  }

  lemma {:induction false} OutsideFirst(b: Block, rest: seq<Block>, s: nat)
    requires Outside([b] + rest, s)
    ensures (s < b.start || s >= b.end) && Outside(rest, s)
  {
    var all := [b] + rest;
    assert all[0] == b;
    forall i | 0 <= i < |rest| ensures s < rest[i].start || s >= rest[i].end {
      assert all[i + 1] == rest[i];
    }
  }

  // ---------- everything outside blocks stays ----------

  function Sources(text: string, blocks: seq<Block>): (r: seq<string>)
    requires forall i :: 0 <= i < |blocks| ==> blocks[i].start <= blocks[i].end <= |text|
    ensures |r| == |blocks|
  {
    if blocks == [] then [] else [text[blocks[0].start..blocks[0].end]] + Sources(text, blocks[1..])
  }

  lemma {:induction false} FitBounds(text: string, from: nat, blocks: seq<Block>)
    requires Fit(text, from, blocks)
    ensures from <= |text|
    ensures forall i :: 0 <= i < |blocks| ==> from <= blocks[i].start < blocks[i].end <= |text|
    ensures forall i, j :: 0 <= i < j < |blocks| ==> blocks[i].end <= blocks[j].start
    decreases blocks
  {
    if blocks != [] {
      FitBounds(text, blocks[0].end, blocks[1..]);
      forall i | 0 <= i < |blocks| ensures from <= blocks[i].start < blocks[i].end <= |text| {
        assert i > 0 ==> blocks[i] == blocks[1..][i - 1];
      }
      forall i, j | 0 <= i < j < |blocks| ensures blocks[i].end <= blocks[j].start {
        assert blocks[j] == blocks[1..][j - 1];
        assert i > 0 ==> blocks[i] == blocks[1..][i - 1];
      }
    }
  }

  /** Putting each block's own source back gives the text. */
  lemma {:induction false} SourcesRestore(text: string, from: nat, blocks: seq<Block>)
    requires Fit(text, from, blocks)
    ensures (forall i :: 0 <= i < |blocks| ==> blocks[i].start <= blocks[i].end <= |text|)
    ensures Spliced(text, from, blocks, Sources(text, blocks)) == text[from..]
    decreases blocks
  {
    FitBounds(text, from, blocks);
    if blocks != [] {
      var b := blocks[0];
      SourcesRestore(text, b.end, blocks[1..]);
      var source, rest := text[b.start..b.end], Sources(text, blocks[1..]);
      assert ([source] + rest)[1..] == rest;
      ThreePieces(text, from, b.start, b.end);
    }
  }

  lemma {:induction false} ThreePieces(text: string, i: nat, j: nat, k: nat)
    requires i <= j <= k <= |text|
    ensures text[i..] == text[i..j] + text[j..k] + text[k..]
  {
  }

  /** The pieces of the text between the blocks. */
  function Gaps(text: string, from: nat, blocks: seq<Block>): (r: seq<string>)
    requires Fit(text, from, blocks)
    ensures |r| == |blocks| + 1
    decreases blocks
  {
    if blocks == [] then [text[from..]]
    else [text[from..blocks[0].start]] + Gaps(text, blocks[0].end, blocks[1..])
  }

  /** Pieces and fillings in turn. */
  function Woven(gaps: seq<string>, fill: seq<string>): string
    requires |gaps| == |fill| + 1
  {
    if fill == [] then gaps[0] else gaps[0] + fill[0] + Woven(gaps[1..], fill[1..])
  }

  lemma {:induction false} SplicedIsWoven(text: string, from: nat, blocks: seq<Block>, with: seq<string>)
    requires Fit(text, from, blocks) && |with| == |blocks|
    ensures Spliced(text, from, blocks, with) == Woven(Gaps(text, from, blocks), with)
    decreases blocks
  {
    if blocks != [] {
      SplicedIsWoven(text, blocks[0].end, blocks[1..], with[1..]);
      var rest := Gaps(text, blocks[0].end, blocks[1..]);
      assert ([text[from..blocks[0].start]] + rest)[1..] == rest;
    }
  }

  /** For every renderer: the text and the rendered text consist of the same pieces in the same order, the
      one with the blocks' sources between them, the other with their replacements. */
  lemma {:induction false} RenderingChangesBlocksOnly(text: string, render: string -> Rendering)
    ensures var blocks := BlocksFrom(text, 0);
            Fit(text, 0, blocks) && (forall i :: 0 <= i < |blocks| ==> blocks[i].start <= blocks[i].end <= |text|)
            && text == Woven(Gaps(text, 0, blocks), Sources(text, blocks))
            && Spliced(text, 0, blocks, Replacements(blocks, render))
               == Woven(Gaps(text, 0, blocks), Replacements(blocks, render))
  {
    var blocks := BlocksFrom(text, 0);
    BlocksFit(text, 0);
    SourcesRestore(text, 0, blocks);
    SplicedIsWoven(text, 0, blocks, Sources(text, blocks));
    SplicedIsWoven(text, 0, blocks, Replacements(blocks, render));
    assert text[0..] == text;
  }
}
