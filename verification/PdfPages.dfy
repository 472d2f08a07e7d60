/** Finding the pages of a document: from the catalog to the pages object, to its kids in order, to
    the content stream of each (section 7.7 of ISO 32000-1). */
module PdfPages {
  import opened Wrappers
  import opened Text
  import opened PdfFormat
  import opened PdfScan
  import opened PdfReader

  // ---------- the reader ----------

  /** The object with the given id. */
  function ObjectOf(doc: Doc, id: nat): Option<string>
  {
    if 1 <= id <= |doc.objects| then Some(doc.objects[id - 1]) else None
  }

  /** The number between two fixed texts, of which the first one is at position i; and the position
      behind the second one. */
  function ReadBetween(s: string, i: nat, before: string, after: string): Option<(nat, nat)>
  {
    if !At(s, before, i) then None
    else
      var (n, j) :- ReadNumber(s, i + |before|);
      if At(s, after, j) then Some((n, j + |after|)) else None
  }

  /** The pages object a catalog names. */
  function CatalogPages(body: string): Option<nat>
  {
    var (id, end) :- ReadBetween(body, 0, CATALOG, REF_END);
    if end == |body| then Some(id) else None
  }

  /** The references from i on, separated by single spaces and closed by a bracket. */
  function ReadRefs(s: string, i: nat): Option<(seq<nat>, nat)>
    decreases |s| - i
  {
    if i >= |s| then None
    else if s[i] == ']' then Some(([], i))
    else
      var (id, j) :- ReadBetween(s, i, "", REF);
      if j > i && At(s, " ", j) then
        var (rest, end) :- ReadRefs(s, j + 1);
        Some(([id] + rest, end))
      else if At(s, "]", j) then Some(([id], j))
      else None
  }

  /** The kids of a pages object, whose count must agree. */
  function KidsOf(body: string): Option<seq<nat>>
  {
    if !At(body, KIDS, 0) then None
    else
      var (kids, i) :- ReadRefs(body, |KIDS|);
      var (count, end) :- ReadBetween(body, i, COUNT, DICT_END);
      if count == |kids| && end == |body| then Some(kids) else None
  }

  /** The parent a page names at its start. */
  function ParentOf(body: string): Option<nat>
  {
    var (id, end) :- ReadBetween(body, 0, PAGE + PARENT_KEY, REF + MEDIA_BOX);
    Some(id)
  }

  /** The content stream a page names at its end. */
  function ContentsOf(body: string): Option<nat>
  {
    if |body| < |REF_END| || !At(body, REF_END, |body| - |REF_END|) then None
    else
      var (id, i) :- ReadNumberBefore(body, |body| - |REF_END|);
      if i >= |CONTENTS| && At(body, CONTENTS, i - |CONTENTS|) then Some(id) else None
  }

  /** The data of a stream, whose Length must be exact. */
  function StreamData(body: string): Option<string>
  {
    var (n, start) :- ReadBetween(body, 0, LENGTH, STREAM);
    if At(body, ENDSTREAM, start + n) && start + n + |ENDSTREAM| == |body| then Some(body[start..start + n]) else None
  }

  function ReadKids(doc: Doc, pagesId: nat, kids: seq<nat>): Option<seq<string>>
    decreases |kids|
  {
    if kids == [] then Some([])
    else
      var page :- ObjectOf(doc, kids[0]);
      var parent :- ParentOf(page);
      var contentId :- ContentsOf(page);
      var stream :- ObjectOf(doc, contentId);
      var content :- StreamData(stream);
      var rest :- ReadKids(doc, pagesId, kids[1..]);
      if parent == pagesId then Some([content] + rest) else None
  }

  /** The content of every page, in order; every page must name the pages object as its parent. */
  function ReadPages(doc: Doc): Option<seq<string>>
  {
    var catalog :- ObjectOf(doc, doc.root);
    var pagesId :- CatalogPages(catalog);
    var pages :- ObjectOf(doc, pagesId);
    var kids :- KidsOf(pages);
    ReadKids(doc, pagesId, kids)
  }

  /** The texts that writer and reader share are the ones of sections 7.5 and 7.7 of ISO 32000-1; a page is 595
      points wide and 842 high. */
  lemma {:induction false} TextsAreStandard()
    ensures CATALOG == "<< /Type /Catalog /Pages " && REF == " 0 R" && REF_END == " 0 R >>"
    ensures KIDS == "<< /Type /Pages /Kids [" && COUNT == "] /Count " && DICT_END == " >>"
    ensures PAGE == "<< /Type /Page " && PARENT_KEY == "/Parent " && CONTENTS == " /Contents "
    ensures MEDIA_BOX == " /MediaBox [0 0 595.0 842.0] /Resources "
    ensures LENGTH == "<< /Length " && STREAM == " >>\nstream\n" && ENDSTREAM == "\nendstream"
    ensures PDF.header == "%PDF-1.4\n%\U{E2}\U{E3}\U{CF}\U{D3}\n" && PDF.obj == " 0 obj\n" && PDF.endobj == "\nendobj\n"
    ensures PDF.xref == "xref\n0 " && PDF.free == "0000000000 65535 f \n" && PDF.inUse == " 00000 n \n"
    ensures PDF.trailer == "trailer\n<< /Size " && PDF.root == " /Root "
    ensures PDF.startxref == " 0 R >>\nstartxref\n" && PDF.eof == "\n%%EOF\n"
  {
  }

  // ---------- reading single objects ----------

  ghost predicate NoDigitHead(s: string)
  {
    s != "" && !IsDigit(s[0])
  }

  lemma {:induction false} BetweenReads(s: string, i: nat, before: string, digits: string, after: string)
    requires At(s, before, i) && Number(digits) && At(s, digits, i + |before|) && NoDigitHead(after)
    requires At(s, after, i + |before| + |digits|)
    ensures ReadBetween(s, i, before, after) == Some((Value(digits), i + |before| + |digits| + |after|))
  {
    assert s[i + |before| + |digits| + 0] == after[0];
    ReadNumberAt(s, i + |before|, digits);
  }

  lemma {:induction false} ThreeParts(a: string, b: string, c: string)
    ensures var s := a + b + c;
            At(s, a, 0) && At(s, b, |a|) && At(s, c, |a| + |b|) && |s| == |a| + |b| + |c|
  {
  }

  lemma {:induction false} CatalogReads(pagesId: nat)
    ensures CatalogPages(CatalogBody(pagesId)) == Some(pagesId)
  {
    OnlyNumberReads(CATALOG, Dec(pagesId), REF_END);
  }

  lemma {:induction false} OnlyNumberReads(before: string, digits: string, after: string)
    requires Number(digits) && NoDigitHead(after)
    ensures var s := before + digits + after;
            ReadBetween(s, 0, before, after) == Some((Value(digits), |s|))
  {
    ThreeParts(before, digits, after);
    WholeReads(before + digits + after, before, digits, after);
  }

  lemma {:induction false} WholeReads(s: string, before: string, digits: string, after: string)
    requires Number(digits) && NoDigitHead(after) && |s| == |before| + |digits| + |after|
    requires At(s, before, 0) && At(s, digits, |before|) && At(s, after, |before| + |digits|)
    ensures ReadBetween(s, 0, before, after) == Some((Value(digits), |s|))
  {
    BetweenReads(s, 0, before, digits, after);
  }

  /** The printed references, the first one split off. */
  lemma {:induction false} JoinRefs(ids: seq<nat>)
    requires ids != []
    ensures Join(Refs(ids), " ")
            == Dec(ids[0]) + REF + (if |ids| == 1 then "" else " " + Join(Refs(ids[1..]), " "))
  {
    assert Refs(ids)[1..] == Refs(ids[1..]);
  }

  /** The printed references read back. */
  lemma {:induction false} RefsRead(s: string, i: nat, ids: seq<nat>)
    requires At(s, Join(Refs(ids), " "), i) && At(s, "]", i + |Join(Refs(ids), " ")|)
    ensures ReadRefs(s, i) == Some((ids, i + |Join(Refs(ids), " ")|))
    decreases |ids|, 1
  {
    if ids == [] {
      assert s[i + 0] == "]"[0];
    } else {
      JoinRefs(ids);
      if |ids| == 1 {
        LastRef(s, i, Dec(ids[0]));
        assert [ids[0]] == ids;
      } else {
        RestReads(s, i, ids, Join(Refs(ids), " "), Join(Refs(ids[1..]), " "));
      }
    }
  }

  /** The same for two or more references, printed as `all`, of which `rest` is all but the first. */
  lemma {:induction false} RestReads(s: string, i: nat, ids: seq<nat>, all: string, rest: string)
    requires |ids| > 1 && rest == Join(Refs(ids[1..]), " ") && all == Dec(ids[0]) + REF + " " + rest
    requires At(s, all, i) && At(s, "]", i + |all|)
    ensures ReadRefs(s, i) == Some((ids, i + |all|))
    decreases |ids|, 0
  {
    var digits := Dec(ids[0]);
    SplitRefs(s, i, digits, rest);
    RefsRead(s, i + |digits| + |REF| + 1, ids[1..]);
    NextRef(s, i, digits, ids[1..], i + |all|);
    assert [ids[0]] + ids[1..] == ids;
  }

  lemma {:induction false} SplitRefs(s: string, i: nat, digits: string, rest: string)
    requires At(s, digits + REF + " " + rest, i)
    ensures At(s, digits + REF, i) && At(s, " ", i + |digits| + |REF|) && At(s, rest, i + |digits| + |REF| + 1)
  {
    AtSplit(s, digits + REF + " ", rest, i);
    AtSplit(s, digits + REF, " ", i);
  }

  lemma {:induction false} LastRef(s: string, i: nat, digits: string)
    requires Number(digits) && At(s, digits + REF, i) && At(s, "]", i + |digits| + |REF|)
    ensures ReadRefs(s, i) == Some(([Value(digits)], i + |digits| + |REF|))
  {
    FirstRef(s, i, digits, "]");
  }

  lemma {:induction false} NextRef(s: string, i: nat, digits: string, rest: seq<nat>, end: nat)
    requires Number(digits) && At(s, digits + REF, i) && At(s, " ", i + |digits| + |REF|)
    requires ReadRefs(s, i + |digits| + |REF| + 1) == Some((rest, end))
    ensures ReadRefs(s, i) == Some(([Value(digits)] + rest, end))
  {
    FirstRef(s, i, digits, " ");
  }

  lemma {:induction false} FirstRef(s: string, i: nat, digits: string, next: string)
    requires At(s, digits + REF, i) && Number(digits) && |next| == 1 && At(s, next, i + |digits| + |REF|)
    ensures s[i] != ']' && ReadBetween(s, i, "", REF) == Some((Value(digits), i + |digits| + |REF|))
    ensures next != " " ==> !At(s, " ", i + |digits| + |REF|)
  {
    AtSplit(s, digits, REF, i);
    assert s[i + 0] == digits[0];
    BetweenReads(s, i, "", digits, REF);
    assert s[i + |digits| + |REF| + 0] == next[0];
  }

  lemma {:induction false} KidsRead(ids: seq<nat>)
    ensures KidsOf(PagesBody(ids)) == Some(ids)
  {
    FiveParts(KIDS, Join(Refs(ids), " "), COUNT, Dec(|ids|), DICT_END);
    KidsAssembled(PagesBody(ids), ids, Join(Refs(ids), " "), Dec(|ids|), |KIDS| + |Join(Refs(ids), " ")|);
  }

  lemma {:induction false} KidsAssembled(body: string, ids: seq<nat>, refs: string, digits: string, i: nat)
    requires refs == Join(Refs(ids), " ") && i == |KIDS| + |refs| && Number(digits) && Value(digits) == |ids|
    requires At(body, KIDS, 0) && At(body, refs, |KIDS|) && At(body, COUNT, i) && At(body, digits, i + |COUNT|)
    requires At(body, DICT_END, i + |COUNT| + |digits|) && |body| == i + |COUNT| + |digits| + |DICT_END|
    ensures KidsOf(body) == Some(ids)
  {
    BracketRead(body, refs, |KIDS|);
    RefsRead(body, |KIDS|, ids);
    CountReads(body, ids, i, digits);
  }

  lemma {:induction false} CountReads(body: string, ids: seq<nat>, i: nat, digits: string)
    requires At(body, KIDS, 0) && ReadRefs(body, |KIDS|) == Some((ids, i))
    requires Number(digits) && Value(digits) == |ids|
    requires At(body, COUNT, i) && At(body, digits, i + |COUNT|)
    requires At(body, DICT_END, i + |COUNT| + |digits|) && |body| == i + |COUNT| + |digits| + |DICT_END|
    ensures KidsOf(body) == Some(ids)
  {
    BetweenReads(body, i, COUNT, digits, DICT_END);
  }

  lemma {:induction false} FiveParts(a: string, b: string, c: string, d: string, e: string)
    ensures var s := a + b + c + d + e;
            At(s, a, 0) && At(s, b, |a|) && At(s, c, |a| + |b|) && At(s, d, |a| + |b| + |c|) &&
            At(s, e, |a| + |b| + |c| + |d|)
  {
  }

  lemma {:induction false} BracketRead(body: string, refs: string, i: nat)
    requires At(body, COUNT, i + |refs|)
    ensures At(body, "]", i + |refs|)
  {
    assert body[i + |refs| + 0] == COUNT[0];
  }

  /** The parent of a finished page reads back. */
  lemma {:induction false} PageParentIs(pagesId: nat, resources: string, content: nat)
    ensures ParentOf(PageBody(PARENT_KEY + Ref(pagesId), resources, content)) == Some(pagesId)
  {
    PageRegroupFront(PAGE, PARENT_KEY, Dec(pagesId), REF, MEDIA_BOX, resources, CONTENTS, Dec(content), REF_END);
    ParentReads(pagesId, PageBody(PARENT_KEY + Ref(pagesId), resources, content),
                resources + CONTENTS + Dec(content) + REF_END);
  }

  /** The content stream of a finished page reads back. */
  lemma {:induction false} PageContentIs(parent: string, resources: string, content: nat)
    ensures ContentsOf(PageBody(parent, resources, content)) == Some(content)
  {
    PageRegroupBack(PAGE, parent, MEDIA_BOX + resources, CONTENTS, Dec(content), REF_END);
    ContentsRead(PAGE + parent + (MEDIA_BOX + resources), content, PageBody(parent, resources, content));
  }

  lemma {:induction false} ParentReads(pagesId: nat, body: string, rest: string)
    requires body == (PAGE + PARENT_KEY) + Dec(pagesId) + (REF + MEDIA_BOX) + rest
    ensures ParentOf(body) == Some(pagesId)
  {
    PageParentReads(PAGE + PARENT_KEY, Dec(pagesId), REF, MEDIA_BOX, rest);
  }

  lemma {:induction false} ContentsRead(front: string, content: nat, body: string)
    requires body == front + CONTENTS + Dec(content) + REF_END
    ensures ContentsOf(body) == Some(content)
  {
    assert !IsDigit(CONTENTS[|CONTENTS| - 1]);
    PageContentReads(front, CONTENTS, Dec(content), REF_END);
  }

  lemma {:induction false} PageRegroupFront(a: string, b: string, c: string, d: string, e: string, f: string,
    g: string, h: string, i: string)
    ensures a + (b + (c + d)) + (e + f + g + h + i) == (a + b) + c + (d + e) + (f + g + h + i)
  {
  }

  lemma {:induction false} PageRegroupBack(a: string, b: string, c: string, d: string, e: string, f: string)
    ensures a + b + (c + d + e + f) == (a + b + c) + d + e + f
  {
  }

  lemma {:induction false} PageParentReads(key: string, digits: string, ref: string, box: string, rest: string)
    requires Number(digits) && NoDigitHead(ref)
    ensures var s := key + digits + (ref + box) + rest;
            ReadBetween(s, 0, key, ref + box) == Some((Value(digits), |key| + |digits| + |ref + box|))
  {
    var s := key + digits + (ref + box) + rest;
    BetweenReads(s, 0, key, digits, ref + box);
  }

  lemma {:induction false} NumberBehind(s: string, key: string, i: nat, digits: string, e: nat)
    requires Number(digits) && key != "" && !IsDigit(key[|key| - 1])
    requires At(s, key, i) && At(s, digits, i + |key|) && e == i + |key| + |digits|
    ensures ReadNumberBefore(s, e) == Some((Value(digits), i + |key|))
  {
    NoDigitBehind(s, key, i);
    ReadNumberBeforeAt(s, i + |key|, e, digits);
  }

  lemma {:induction false} PageContentReads(front: string, key: string, digits: string, end: string)
    requires Number(digits) && key != "" && !IsDigit(key[|key| - 1])
    ensures var s := front + key + digits + end;
            var e := |s| - |end|;
            At(s, end, e) && ReadNumberBefore(s, e) == Some((Value(digits), |front| + |key|)) &&
            At(s, key, |front|)
  {
    FourParts(front, key, digits, end);
    ContentAtEnd(front + key + digits + end, |front|, key, digits, end);
  }

  lemma {:induction false} ContentAtEnd(s: string, i: nat, key: string, digits: string, end: string)
    requires Number(digits) && key != "" && !IsDigit(key[|key| - 1])
    requires At(s, key, i) && At(s, digits, i + |key|) && At(s, end, i + |key| + |digits|)
    requires |s| == i + |key| + |digits| + |end|
    ensures var e := |s| - |end|;
            At(s, end, e) && ReadNumberBefore(s, e) == Some((Value(digits), i + |key|)) && At(s, key, i)
  {
    NumberBetween(s, i, key, digits, end);
  }

  lemma {:induction false} NumberBetween(s: string, i: nat, key: string, digits: string, end: string)
    requires Number(digits) && key != "" && !IsDigit(key[|key| - 1])
    requires At(s, key, i) && At(s, digits, i + |key|) && |s| == i + |key| + |digits| + |end|
    ensures ReadNumberBefore(s, |s| - |end|) == Some((Value(digits), i + |key|))
  {
    NumberBehind(s, key, i, digits, |s| - |end|);
  }

  lemma {:induction false} FourParts(a: string, b: string, c: string, d: string)
    ensures var s := a + b + c + d;
            At(s, b, |a|) && At(s, c, |a| + |b|) && At(s, d, |a| + |b| + |c|)
            && |s| == |a| + |b| + |c| + |d|
  {
  }

  lemma {:induction false} NoDigitBehind(s: string, key: string, i: nat)
    requires At(s, key, i) && key != "" && !IsDigit(key[|key| - 1])
    ensures NoDigitAt(s, i + |key| - 1)
  {
    assert s[i + (|key| - 1)] == key[|key| - 1];
  }

  // ---------- patching the parent ----------

  lemma {:induction false} DigitsHaveNoE(n: nat)
    ensures 'E' !in Dec(n)
  {
  }

  lemma {:induction false} XObjectsHaveNoE(ids: seq<nat>, from: nat)
    requires from <= |ids|
    ensures 'E' !in XObjects(ids, from)
    decreases |ids| - from
  {
    if from < |ids| {
      DigitsHaveNoE(from);
      DigitsHaveNoE(ids[from]);
      XObjectsHaveNoE(ids, from + 1);
    }
  }

  lemma {:induction false} ResourcesHaveNoE(font: nat, bold: nat, ids: seq<nat>)
    ensures 'E' !in Resources(font, bold, ids)
  {
    DigitsHaveNoE(font);
    DigitsHaveNoE(bold);
    XObjectsHaveNoE(ids, 0);
  }

  /** Objects without the placeholder are left alone. */
  lemma {:induction false} PatchLeavesAlone(body: string, pagesId: nat)
    requires 'E' !in body
    ensures Patch(body, pagesId) == body
  {
    assert PARENT[11] == 'E';
    AbsentCharacter(body, PARENT, 'E');
    ReplaceAbsent(body, PARENT, PARENT_KEY + Ref(pagesId));
  }

  /** In a page object the first occurrence of the placeholder is the parent entry. */
  lemma {:induction false} FirstPlaceholder(rest: string)
    ensures Find(PAGE + PARENT + rest, PARENT, 0) == Some(|PAGE|)
  {
    var s := PAGE + PARENT + rest;
    assert s[|PAGE|..|PAGE| + |PARENT|] == PARENT;
    forall j | 0 <= j < |PAGE| ensures !OccursAt(s, PARENT, j) {
      NotInPageBeginning(PAGE + PARENT, rest, j);
    }
    assert OccursAt(s, PARENT, |PAGE|);
  }

  lemma {:induction false} NotInPageBeginning(front: string, rest: string, j: nat)
    requires j < |PAGE| && front == PAGE + PARENT
    ensures !OccursAt(front + rest, PARENT, j)
  {
    OccursChar(front + rest, PARENT, j, 0);
    OccursChar(front + rest, PARENT, j, 3);
    PageBeginning(j);
  }

  lemma {:induction false} PageBeginning(j: nat)
    requires j < |PAGE|
    ensures (PAGE + PARENT)[j] != PARENT[0] || (PAGE + PARENT)[j + 3] != PARENT[3]
  {
    assert PAGE + PARENT == "<< /Type /Page /Parent PARENT 0 R";
  }

  /** Patching a page sets its parent and nothing else. */
  lemma {:induction false} PatchSetsParent(resources: string, content: nat, pagesId: nat)
    requires 'E' !in resources
    ensures Patch(PageBody(PARENT, resources, content), pagesId)
         == PageBody(PARENT_KEY + Ref(pagesId), resources, content)
  {
    var rest := PageRest(resources, content);
    FirstPlaceholder(rest);
    ReplaceFirst(PAGE, rest, PARENT, PARENT_KEY + Ref(pagesId));
    RestHasNoE(resources, content);
    PatchLeavesAlone(rest, pagesId);
  }

  lemma {:induction false} RestHasNoE(resources: string, content: nat)
    requires 'E' !in resources
    ensures 'E' !in PageRest(resources, content)
  {
    DigitsHaveNoE(content);
  }

  ghost predicate PlaceholderFree(content: string)
  {
    Find(content, PARENT, 0).None?
  }

  /** Patching a content stream patches its data only, and leaves the stated length. */
  lemma {:induction false} PatchOfContent(content: string, pagesId: nat)
    ensures Patch(ContentBody(content), pagesId)
         == LENGTH + Dec(|content|) + STREAM + Patch(content, pagesId) + ENDSTREAM
  {
    var fixed := PARENT_KEY + Ref(pagesId);
    var head := LENGTH + Dec(|content|) + " >>\nstream";
    DigitsHaveNoE(|content|);
    assert '\n' !in PARENT && 'E' !in head && 'E' !in "endstream";
    PatchLeavesAlone(head, pagesId);
    PatchLeavesAlone("endstream", pagesId);
    ReplaceConcat(content, '\n', "endstream", PARENT, fixed);
    ReplaceConcat(head, '\n', content + ['\n'] + "endstream", PARENT, fixed);
    ContentRegroup(LENGTH + Dec(|content|), content);
    ContentRegroup(LENGTH + Dec(|content|), Patch(content, pagesId));
  }

  lemma {:induction false} ContentRegroup(a: string, content: string)
    ensures a + STREAM + content + ENDSTREAM
         == (a + " >>\nstream") + ['\n'] + (content + ['\n'] + "endstream")
  {
    assert STREAM == " >>\nstream" + ['\n'] && ENDSTREAM == ['\n'] + "endstream";
    RegroupStream(a, " >>\nstream", ['\n'], content, ['\n'], "endstream");
  }

  lemma {:induction false} RegroupStream(a: string, b: string, c: string, d: string, e: string, f: string)
    ensures a + (b + c) + d + (e + f) == (a + b) + c + (d + e + f)
  {
  }

  /** Replacing an occurrence of the placeholder changes the letter behind the key. */
  lemma {:induction false} PatchChangesContent(content: string, pagesId: nat) returns (k: nat)
    requires !PlaceholderFree(content)
    ensures k < |content| && k < |Patch(content, pagesId)| && content[k] != Patch(content, pagesId)[k]
  {
    var fixed := PARENT_KEY + Ref(pagesId);
    var head, tail := CutAtFirst(content, PARENT);
    ReplaceFirst(head, tail, PARENT, fixed);
    k := |head| + |PARENT_KEY|;
    assert PARENT[|PARENT_KEY|] == 'P';
    assert fixed[|PARENT_KEY|] == Ref(pagesId)[0] == Dec(pagesId)[0];
    assert content[k] == PARENT[|PARENT_KEY|];
    assert Patch(content, pagesId)[k] == fixed[|PARENT_KEY|];
  }

  /** The content stream of a finished document reads back exactly when the page content does not
      hold the text of the placeholder. */
  lemma {:induction false} ContentReads(content: string, pagesId: nat)
    ensures StreamData(Patch(ContentBody(content), pagesId)) == Some(content) <==> PlaceholderFree(content)
  {
    var data := Patch(content, pagesId);
    PatchOfContent(content, pagesId);
    StreamReads(LENGTH, Dec(|content|), STREAM, data, ENDSTREAM);
    if PlaceholderFree(content) {
      ReplaceAbsent(content, PARENT, PARENT_KEY + Ref(pagesId));
    } else {
      var k := PatchChangesContent(content, pagesId);
    }
  }

  lemma {:induction false} StreamReads(length: string, digits: string, stream: string, data: string, end: string)
    requires Number(digits) && NoDigitHead(stream)
    ensures var s := length + digits + stream + data + end;
            var start := |length| + |digits| + |stream|;
            ReadBetween(s, 0, length, stream) == Some((Value(digits), start)) &&
            (forall k :: 0 <= k < |data| ==> s[start + k] == data[k]) &&
            At(s, end, start + |data|) && s[start..start + |data|] == data
  {
    var s := length + digits + stream + data + end;
    BetweenReads(s, 0, length, digits, stream);
  }
}
