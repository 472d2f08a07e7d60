/** Splitting a wiki page's markdown into chunks on paragraph boundaries. */
module Chunking {
  import opened Text
  import opened GreedyPacking

  const BLANK_LINE := "\n\n"

  /** The stripped pieces that are not empty. */
  function NonBlank(pieces: seq<string>): seq<string>
  {
    if pieces == [] then []
    else
      var p := Strip(pieces[0]);
      (if p == "" then [] else [p]) + NonBlank(pieces[1..])
  }

  /** The paragraphs of a markdown text. */
  function Paragraphs(content: string): seq<string>
  {
    var text := Strip(content);
    if text == "" then [] else NonBlank(Split(text, BLANK_LINE))
  }

  /** The chunks still to come when `current` is being filled and `paras` are left. */
  function ChunkFrom(current: string, paras: seq<string>, target: int): seq<string>
    decreases |paras|
  {
    if paras == [] then (if current == "" then [] else [current])
    else
      var candidate := Strip(current + BLANK_LINE + paras[0]);
      if current != "" && |candidate| > target then
        [current] + ChunkFrom(paras[0], paras[1..], target)
      else
        ChunkFrom(candidate, paras[1..], target)
  }

  function Chunks(content: string, target: int): seq<string>
  {
    ChunkFrom("", Paragraphs(content), target)
  }

  method ChunkContent(content: string, target: int) returns (chunks: seq<string>)
    ensures chunks == Chunks(content, target)
  {
    chunks := [];
    var paragraphs := Paragraphs(content);
    var current := "";
    for i := 0 to |paragraphs|
      invariant Chunks(content, target) == chunks + ChunkFrom(current, paragraphs[i..], target)
    {
      assert paragraphs[i..][1..] == paragraphs[i + 1..];
      var candidate := Strip(current + BLANK_LINE + paragraphs[i]);
      if current != "" && |candidate| > target {
        assert chunks + ([current] + ChunkFrom(paragraphs[i], paragraphs[i + 1..], target))
            == (chunks + [current]) + ChunkFrom(paragraphs[i], paragraphs[i + 1..], target);
        chunks := chunks + [current];
        current := paragraphs[i];
      } else {
        current := candidate;
      }
    }
    if current != "" {
      chunks := chunks + [current];
    }
  }

  // ---------- paragraphs ----------

  /** A paragraph is not blank, is trimmed, and holds no blank line. */
  ghost predicate IsParagraph(p: string)
  {
    Unpadded(p, PySpace) && Find(p, BLANK_LINE, 0).None?
  }

  lemma {:induction false} TrimLeftIsSuffix(s: string, blank: char -> bool)
    ensures |TrimLeft(s, blank)| <= |s| && s[|s| - |TrimLeft(s, blank)|..] == TrimLeft(s, blank)
  {
    if s != [] && blank(s[0]) {
      TrimLeftIsSuffix(s[1..], blank);
    }
  }

  /** Trimming cannot create an occurrence of a pattern. */
  lemma {:induction false} TrimmedHasNoNewMatch(s: string, p: string)
    requires Find(s, p, 0).None?
    ensures Find(Strip(s), p, 0).None?
  {
    TrimLeftIsSuffix(s, PySpace);
    var t := Strip(s);
    var f := Find(t, p, 0);
    if f.Some? {
      var k := |s| - |TrimLeft(s, PySpace)|;
      assert s[k + f.value..k + f.value + |p|] == t[f.value..f.value + |p|];
      assert OccursAt(s, p, k + f.value);
    }
  }

  lemma {:induction false} NonBlankAreParagraphs(pieces: seq<string>)
    requires forall p :: p in pieces ==> Find(p, BLANK_LINE, 0).None?
    ensures forall p :: p in NonBlank(pieces) ==> IsParagraph(p)
  {
    if pieces != [] {
      TrimmedHasNoNewMatch(pieces[0], BLANK_LINE);
      TrimIsUnpadded(pieces[0], PySpace);
      assert Find(pieces[0], BLANK_LINE, 0).None?;
      NonBlankAreParagraphs(pieces[1..]);
    }
  }

  lemma {:induction false} ParagraphsAreParagraphs(content: string)
    ensures forall p :: p in Paragraphs(content) ==> IsParagraph(p)
  {
    var text := Strip(content);
    if text != "" {
      SplitPartsAreClean(text, BLANK_LINE);
      NonBlankAreParagraphs(Split(text, BLANK_LINE));
    }
  }

  lemma {:induction false} ParagraphIsSplittable(p: string)
    requires IsParagraph(p)
    ensures Splittable(p, BLANK_LINE)
  {
    forall j | 0 <= j < |p| ensures !OccursAt(p + BLANK_LINE, BLANK_LINE, j) {
      var s := p + BLANK_LINE;
      if j + 2 <= |p| {
        assert !OccursAt(p, BLANK_LINE, j);
        assert s[j..j + 2] == p[j..j + 2];
      } else {
        assert s[j..j + 2][0] == p[|p| - 1];
      }
    }
  }

  lemma {:induction false} NonBlankOfParagraphs(paras: seq<string>)
    requires forall p :: p in paras ==> IsParagraph(p)
    ensures NonBlank(paras) == paras
  {
    if paras != [] {
      assert IsParagraph(paras[0]);
      TrimUnpadded(paras[0], PySpace);
      NonBlankOfParagraphs(paras[1..]);
    }
  }

  lemma {:induction false} JoinIsUnpadded(paras: seq<string>)
    requires paras != [] && forall p :: p in paras ==> Unpadded(p, PySpace)
    ensures Unpadded(Join(paras, BLANK_LINE), PySpace)
  {
    assert Unpadded(paras[0], PySpace);
    if |paras| > 1 {
      JoinIsUnpadded(paras[1..]);
    }
  }

  /** Joining paragraphs with blank lines and splitting that text again is the identity. */
  lemma {:induction false} ParagraphsOfJoin(paras: seq<string>)
    requires forall p :: p in paras ==> IsParagraph(p)
    ensures Paragraphs(Join(paras, BLANK_LINE)) == paras
  {
    if paras == [] {
      assert Strip("") == "";
    } else {
      JoinIsUnpadded(paras);
      TrimUnpadded(Join(paras, BLANK_LINE), PySpace);
      forall p | p in paras ensures Splittable(p, BLANK_LINE) {
        ParagraphIsSplittable(p);
      }
      SplitJoin(paras, BLANK_LINE);
      NonBlankOfParagraphs(paras);
    }
  }

  // ---------- the chunks are the greedy packing of the paragraphs ----------

  function ParagraphMeasure(target: int): Measure<string>
  {
    Measure((p: string) => |p|, 2, target)
  }

  function JoinGroups(groups: seq<seq<string>>): seq<string>
  {
    if groups == [] then [] else [Join(groups[0], BLANK_LINE)] + JoinGroups(groups[1..])
  }

  function Groups(paras: seq<string>, target: int): seq<seq<string>>
  {
    if paras == [] then [] else Pack([paras[0]], paras[1..], ParagraphMeasure(target))
  }

  lemma {:induction false} LengthIsWeight(paras: seq<string>, target: int)
    requires paras != []
    ensures |Join(paras, BLANK_LINE)| == Weight(paras, ParagraphMeasure(target))
  {
    if |paras| > 1 {
      LengthIsWeight(paras[1..], target);
    }
  }

  lemma {:induction false} ChunkFromIsPack(group: seq<string>, paras: seq<string>, target: int)
    requires group != [] && forall p :: p in group + paras ==> IsParagraph(p)
    ensures ChunkFrom(Join(group, BLANK_LINE), paras, target)
         == JoinGroups(Pack(group, paras, ParagraphMeasure(target)))
    decreases |paras|
  {
    assert forall q :: q in group ==> q in group + paras;
    JoinIsUnpadded(group);
    if paras == [] {
      assert JoinGroups([group]) == [Join(group, BLANK_LINE)];
    } else {
      var p, rest := paras[0], paras[1..];
      assert forall q :: q in group + [p] ==> q in group + paras;
      assert forall q :: q in [p] + rest ==> q in group + paras;
      assert (group + [p]) + rest == group + paras;
      JoinAppend(group, p, BLANK_LINE);
      JoinIsUnpadded(group + [p]);
      TrimUnpadded(Join(group + [p], BLANK_LINE), PySpace);
      LengthIsWeight(group + [p], target);
      if Weight(group + [p], ParagraphMeasure(target)) > target {
        ChunkFromIsPack([p], rest, target);
      } else {
        ChunkFromIsPack(group + [p], rest, target);
      }
    }
  }

  lemma {:induction false} ChunksAreGroups(content: string, target: int)
    ensures Chunks(content, target) == JoinGroups(Groups(Paragraphs(content), target))
  {
    var paras := Paragraphs(content);
    if paras != [] {
      ParagraphsAreParagraphs(content);
      assert paras[0] in paras && [paras[0]] + paras[1..] == paras;
      TrimLeftDrops(BLANK_LINE, paras[0], PySpace);
      assert "" + BLANK_LINE + paras[0] == BLANK_LINE + paras[0];
      TrimUnpadded(paras[0], PySpace);
      ChunkFromIsPack([paras[0]], paras[1..], target);
    }
  }

  lemma {:induction false} GroupsArePacking(paras: seq<string>, target: int)
    ensures IsPacking(Groups(paras, target), paras, ParagraphMeasure(target))
  {
    if paras != [] {
      PackIsPacking([paras[0]], paras[1..], ParagraphMeasure(target));
      assert [paras[0]] + paras[1..] == paras;
    }
  }

  // ---------- main results ----------

  lemma {:induction false} JoinOfGroups(groups: seq<seq<string>>)
    requires forall g :: g in groups ==> |g| > 0
    ensures |JoinGroups(groups)| == |groups|
    ensures Join(JoinGroups(groups), BLANK_LINE) == Join(Flatten(groups), BLANK_LINE)
  {
    if |groups| == 1 {
      assert Flatten(groups) == groups[0];
    } else if |groups| > 1 {
      JoinOfGroups(groups[1..]);
      assert |groups[0]| > 0 && |groups[1]| > 0;
      assert Flatten(groups[1..]) == groups[1] + Flatten(groups[2..]);
      JoinConcat(groups[0], Flatten(groups[1..]), BLANK_LINE);
      assert JoinGroups(groups)[1..] == JoinGroups(groups[1..]);
    }
  }

  /** Joining the chunks with blank lines gives the normalised paragraphs, for every text. */
  lemma {:induction false} ChunksAreLossless(content: string, target: int)
    ensures Join(Chunks(content, target), BLANK_LINE) == Join(Paragraphs(content), BLANK_LINE)
  {
    var paras := Paragraphs(content);
    ChunksAreGroups(content, target);
    GroupsArePacking(paras, target);
    JoinOfGroups(Groups(paras, target));
  }

  /** Splitting the joined chunks gives the paragraphs of the page again. */
  lemma {:induction false} JoinedChunksHaveSameParagraphs(content: string, target: int)
    ensures Paragraphs(Join(Chunks(content, target), BLANK_LINE)) == Paragraphs(content)
  {
    ChunksAreLossless(content, target);
    ParagraphsAreParagraphs(content);
    ParagraphsOfJoin(Paragraphs(content));
  }

  /** Chunking is stable: chunking the joined chunks gives the same chunks. */
  lemma {:induction false} ChunkingIsIdempotent(content: string, target: int)
    ensures Chunks(Join(Chunks(content, target), BLANK_LINE), target) == Chunks(content, target)
  {
    JoinedChunksHaveSameParagraphs(content, target);
  }

  lemma {:induction false} GroupsFit(groups: seq<seq<string>>, paras: seq<string>, target: int)
    requires forall g :: g in groups ==> Acceptable(g, ParagraphMeasure(target))
    requires forall p :: p in Flatten(groups) ==> p in paras
    ensures forall c :: c in JoinGroups(groups) ==> |c| <= target || c in paras
  {
    if groups != [] {
      var g := groups[0];
      assert Flatten(groups) == g + Flatten(groups[1..]);
      GroupsFit(groups[1..], paras, target);
      assert Acceptable(g, ParagraphMeasure(target));
      LengthIsWeight(g, target);
      assert |g| == 1 ==> g[0] in Flatten(groups);
    }
  }

  /** A chunk is within the target or is one paragraph. */
  lemma {:induction false} ChunksFit(content: string, target: int)
    ensures forall c :: c in Chunks(content, target) ==> |c| <= target || c in Paragraphs(content)
  {
    var paras := Paragraphs(content);
    ChunksAreGroups(content, target);
    GroupsArePacking(paras, target);
    GroupsFit(Groups(paras, target), paras, target);
  }

  /** No grouping of consecutive paragraphs into chunks that are within the target, or hold one
      paragraph, has fewer chunks. */
  lemma {:induction false} ChunkCountIsMinimal(content: string, target: int, groups: seq<seq<string>>)
    requires IsPacking(groups, Paragraphs(content), ParagraphMeasure(target))
    ensures |Chunks(content, target)| <= |groups|
  {
    var paras := Paragraphs(content);
    ChunksAreGroups(content, target);
    GroupsArePacking(paras, target);
    JoinOfGroups(Groups(paras, target));
    if paras != [] {
      assert [] + [paras[0]] + paras[1..] == paras;
      GreedyIsOptimal([], [paras[0]], paras[1..], groups, ParagraphMeasure(target));
    }
  }
}
