/** The document the builder makes, read back as a whole. */
module PdfDocument {
  import opened Wrappers
  import opened Text
  import opened PngDecode
  import opened PdfFormat
  import opened PdfReader
  import opened PdfReadback
  import opened PdfPages

  // ---------- what the page loop adds ----------

  function ContentOf(parts: seq<string>): string
  {
    Join(parts, "\n")
  }

  function Contents(pages: seq<seq<string>>): seq<string>
  {
    if pages == [] then [] else [ContentOf(pages[0])] + Contents(pages[1..])
  }

  /** The objects of the pages when n objects are there before them. */
  function PageObjects(n: nat, pages: seq<seq<string>>, resources: string): (objects: seq<string>)
    ensures |objects| == 2 * |pages|
    decreases |pages|
  {
    if pages == [] then []
    else [ContentBody(ContentOf(pages[0])), PageBody(PARENT, resources, n + 1)]
         + PageObjects(n + 2, pages[1..], resources)
  }

  function PageIds(n: nat, count: nat): (ids: seq<nat>)
    ensures |ids| == count
    decreases count
  {
    if count == 0 then [] else [n + 2] + PageIds(n + 2, count - 1)
  }

  lemma {:induction false} OnePageAppends(done: Laid, page: seq<string>, resources: string)
    ensures var n := |done.objects|;
            AddPage(done, page, resources)
            == Laid(done.objects + [ContentBody(ContentOf(page)), PageBody(PARENT, resources, n + 1)],
                    done.ids + [n + 2])
  {
  }

  lemma {:induction false} AddPagesAppends(done: Laid, pages: seq<seq<string>>, resources: string)
    ensures AddPages(done, pages, resources)
         == Laid(done.objects + PageObjects(|done.objects|, pages, resources),
                 done.ids + PageIds(|done.objects|, |pages|))
    decreases |pages|
  {
    if pages == [] {
      assert done.objects + [] == done.objects && done.ids + [] == done.ids;
    } else {
      var n := |done.objects|;
      var two := [ContentBody(ContentOf(pages[0])), PageBody(PARENT, resources, n + 1)];
      var next := Laid(done.objects + two, done.ids + [n + 2]);
      OnePageAppends(done, pages[0], resources);
      AddPagesAppends(next, pages[1..], resources);
      Reassociate(done.objects, two, PageObjects(n + 2, pages[1..], resources));
      Reassociate(done.ids, [n + 2], PageIds(n + 2, |pages| - 1));
    }
  }

  lemma {:induction false} Reassociate<T>(a: seq<T>, b: seq<T>, c: seq<T>)
    ensures (a + b) + c == a + (b + c)
  {
  }

  // ---------- what the image loop adds ----------

  /** Every image id names the image's own object, and its mask, if any, is the object before it. */
  ghost predicate ImagesResolve(objects: seq<string>, ids: seq<nat>, images: seq<ImageSpec>, deflate: Deflate)
  {
    |ids| == |images| && forall k :: 0 <= k < |images| ==> ImageResolves(objects, ids[k], images[k], deflate)
  }

  ghost predicate ImageResolves(objects: seq<string>, id: nat, spec: ImageSpec, deflate: Deflate)
  {
    1 <= id <= |objects| &&
    match spec.alpha
    case None => objects[id - 1] == RgbBody(spec, "", deflate)
    case Some(alpha) =>
      id >= 2 && objects[id - 1] == RgbBody(spec, " /SMask " + Ref(id - 1), deflate) &&
      objects[id - 2] == AlphaBody(spec, alpha, deflate)
  }

  lemma {:induction false} AddImagesResolve(done: Laid, before: seq<ImageSpec>, images: seq<ImageSpec>,
                                            deflate: Deflate)
    requires ImagesResolve(done.objects, done.ids, before, deflate)
    ensures var r := AddImages(done, images, deflate);
            done.objects <= r.objects && ImagesResolve(r.objects, r.ids, before + images, deflate)
    decreases |images|
  {
    if images == [] {
      assert before + images == before;
    } else {
      var next := AddImage(done, images[0], deflate);
      assert (before + [images[0]]) + images[1..] == before + images;
      NextImageResolves(done, before, images[0], deflate);
      AddImagesResolve(next, before + [images[0]], images[1..], deflate);
    }
  }

  lemma {:induction false} NextImageResolves(done: Laid, before: seq<ImageSpec>, spec: ImageSpec, deflate: Deflate)
    requires ImagesResolve(done.objects, done.ids, before, deflate)
    ensures var next := AddImage(done, spec, deflate);
            done.objects <= next.objects && ImagesResolve(next.objects, next.ids, before + [spec], deflate)
  {
    var next := AddImage(done, spec, deflate);
    var all := before + [spec];
    assert ImageResolves(next.objects, next.ids[|before|], spec, deflate);
    forall k | 0 <= k < |all| ensures ImageResolves(next.objects, next.ids[k], all[k], deflate) {
      if k < |before| {
        assert ImageResolves(done.objects, done.ids[k], before[k], deflate);
        Extended(done.objects, next.objects, done.ids[k], before[k], deflate);
      }
    }
  }

  lemma {:induction false} Extended(objects: seq<string>, more: seq<string>, id: nat, spec: ImageSpec, deflate: Deflate)
    requires objects <= more && ImageResolves(objects, id, spec, deflate)
    ensures ImageResolves(more, id, spec, deflate)
  {
  }

  // ---------- reading the pages back ----------

  ghost predicate AllFree(pages: seq<seq<string>>)
  {
    pages != [] ==> PlaceholderFree(ContentOf(pages[0])) && AllFree(pages[1..])
  }

  /** From position n on, the document holds the patched form of `objects`. */
  ghost predicate Holds(doc: Doc, n: nat, objects: seq<string>, pagesId: nat)
  {
    n + |objects| <= |doc.objects| &&
    forall k :: 0 <= k < |objects| ==> doc.objects[n + k] == Patch(objects[k], pagesId)
  }

  lemma {:induction false} HoldsSplit(doc: Doc, n: nat, a: seq<string>, b: seq<string>, pagesId: nat)
    requires Holds(doc, n, a + b, pagesId)
    ensures Holds(doc, n, a, pagesId) && Holds(doc, n + |a|, b, pagesId)
  {
    forall k | 0 <= k < |a| ensures doc.objects[n + k] == Patch(a[k], pagesId) {
      assert (a + b)[k] == a[k];
    }
    forall k | 0 <= k < |b| ensures doc.objects[n + |a| + k] == Patch(b[k], pagesId) {
      assert (a + b)[|a| + k] == b[k];
    }
  }

  lemma {:induction false} HoldsTwo(doc: Doc, n: nat, a: string, b: string, pagesId: nat)
    requires Holds(doc, n, [a, b], pagesId)
    ensures n + 2 <= |doc.objects|
    ensures doc.objects[n] == Patch(a, pagesId) && doc.objects[n + 1] == Patch(b, pagesId)
  {
    assert [a, b][0] == a && [a, b][1] == b;
    assert doc.objects[n + 0] == Patch([a, b][0], pagesId);
  }

  lemma {:induction false} PatchedHolds(objects: seq<string>, pagesId: nat)
    ensures Holds(Doc(Patched(objects, pagesId), pagesId + 1), 0, objects, pagesId)
  {
  }

  /** The ids of the image objects, which every page names in its resources. */
  function ImageIds(objects: seq<string>, images: seq<ImageSpec>, deflate: Deflate): seq<nat>
  {
    AddImages(Laid(objects + [FONT, FONT_BOLD], []), images, deflate).ids
  }

  lemma {:induction false} ImagesLaidOut(objects: seq<string>, images: seq<ImageSpec>, deflate: Deflate)
    ensures var r := AddImages(Laid(objects + [FONT, FONT_BOLD], []), images, deflate);
            objects + [FONT, FONT_BOLD] <= r.objects && r.ids == ImageIds(objects, images, deflate)
            && ImagesResolve(r.objects, r.ids, images, deflate)
  {
    AddImagesResolve(Laid(objects + [FONT, FONT_BOLD], []), [], images, deflate);
    assert [] + images == images;
  }

  lemma {:induction false} BuiltObjects(objects: seq<string>, images: seq<ImageSpec>, pages: seq<seq<string>>,
                                        deflate: Deflate, base: seq<string>)
    requires base == AddImages(Laid(objects + [FONT, FONT_BOLD], []), images, deflate).objects
    ensures var pagesId := |base| + 2 * |pages| + 1;
            var resources := Resources(|objects| + 1, |objects| + 2, ImageIds(objects, images, deflate));
            var root := [PagesBody(PageIds(|base|, |pages|)), CatalogBody(pagesId)];
            BuiltFrom(objects, images, pages, deflate)
            == Built(Patched(base + PageObjects(|base|, pages, resources) + root, pagesId), pagesId + 1)
  {
    PagesLaidOut(base, pages, Resources(|objects| + 1, |objects| + 2, ImageIds(objects, images, deflate)));
  }

  /** The structure of a built document: which objects it holds, with the ids of fonts, images and
      pages, when the parents are patched. */
  lemma {:induction false} BuiltLayout(objects: seq<string>, images: seq<ImageSpec>, pages: seq<seq<string>>,
    deflate: Deflate) returns (base: seq<string>, imageIds: seq<nat>, pagesId: nat)
    ensures pagesId == |base| + 2 * |pages| + 1
    ensures var built := BuiltFrom(objects, images, pages, deflate);
            var doc := Doc(built.objects, built.catalog);
            built.catalog == pagesId + 1 && Holds(doc, 0, base, pagesId) &&
            Holds(doc, |base|, PageObjects(|base|, pages, Resources(|objects| + 1, |objects| + 2, imageIds)),
                  pagesId) &&
            Holds(doc, pagesId - 1, [PagesBody(PageIds(|base|, |pages|)), CatalogBody(pagesId)], pagesId)
    ensures objects + [FONT, FONT_BOLD] <= base
    ensures imageIds == ImageIds(objects, images, deflate) && ImagesResolve(base, imageIds, images, deflate)
  {
    base := AddImages(Laid(objects + [FONT, FONT_BOLD], []), images, deflate).objects;
    imageIds, pagesId := ImageIds(objects, images, deflate), |base| + 2 * |pages| + 1;
    ImagesLaidOut(objects, images, deflate);
    BuiltObjects(objects, images, pages, deflate, base);
    var resources := Resources(|objects| + 1, |objects| + 2, imageIds);
    AllHolds(base, PageObjects(|base|, pages, resources),
             [PagesBody(PageIds(|base|, |pages|)), CatalogBody(pagesId)], pagesId);
  }

  lemma {:induction false} PagesLaidOut(base: seq<string>, pages: seq<seq<string>>, resources: string)
    ensures AddPages(Laid(base, []), pages, resources)
         == Laid(base + PageObjects(|base|, pages, resources), PageIds(|base|, |pages|))
  {
    AddPagesAppends(Laid(base, []), pages, resources);
    assert [] + PageIds(|base|, |pages|) == PageIds(|base|, |pages|);
  }

  lemma {:induction false} AllHolds(base: seq<string>, middle: seq<string>, root: seq<string>, pagesId: nat)
    ensures var doc := Doc(Patched(base + middle + root, pagesId), pagesId + 1);
            Holds(doc, 0, base, pagesId) && Holds(doc, |base|, middle, pagesId)
            && Holds(doc, |base| + |middle|, root, pagesId)
  {
    var all := base + middle + root;
    PatchedHolds(all, pagesId);
    HoldsParts(Doc(Patched(all, pagesId), pagesId + 1), base, middle, root, pagesId);
  }

  lemma {:induction false} HoldsParts(doc: Doc, a: seq<string>, b: seq<string>, c: seq<string>, pagesId: nat)
    requires Holds(doc, 0, a + b + c, pagesId)
    ensures Holds(doc, 0, a, pagesId) && Holds(doc, |a|, b, pagesId) && Holds(doc, |a| + |b|, c, pagesId)
  {
    HoldsSplit(doc, 0, a + b, c, pagesId);
    HoldsSplit(doc, 0, a, b, pagesId);
  }

  /** One page: its parent, the id of its content, and when the content reads back. */
  lemma {:induction false} OnePageReads(doc: Doc, n: nat, content: string, resources: string, pagesId: nat)
    requires 'E' !in resources
    requires Holds(doc, n, [ContentBody(content), PageBody(PARENT, resources, n + 1)], pagesId)
    ensures ObjectOf(doc, n + 2).Some? && ObjectOf(doc, n + 1).Some?
    ensures ParentOf(ObjectOf(doc, n + 2).value) == Some(pagesId)
    ensures ContentsOf(ObjectOf(doc, n + 2).value) == Some(n + 1)
    ensures StreamData(ObjectOf(doc, n + 1).value) == Some(content) <==> PlaceholderFree(content)
  {
    HoldsTwo(doc, n, ContentBody(content), PageBody(PARENT, resources, n + 1), pagesId);
    PatchSetsParent(resources, n + 1, pagesId);
    PageParentIs(pagesId, resources, n + 1);
    PageContentIs(PARENT_KEY + Ref(pagesId), resources, n + 1);
    ContentReads(content, pagesId);
  }

  lemma {:induction false} KidsReadBack(doc: Doc, n: nat, pages: seq<seq<string>>, resources: string, pagesId: nat)
    requires 'E' !in resources && Holds(doc, n, PageObjects(n, pages, resources), pagesId)
    ensures ReadKids(doc, pagesId, PageIds(n, |pages|)) == Some(Contents(pages)) <==> AllFree(pages)
    decreases |pages|
  {
    if pages != [] {
      var content, rest := ContentOf(pages[0]), pages[1..];
      HoldsSplit(doc, n, [ContentBody(content), PageBody(PARENT, resources, n + 1)],
                 PageObjects(n + 2, rest, resources), pagesId);
      OnePageReads(doc, n, content, resources, pagesId);
      KidsReadBack(doc, n + 2, rest, resources, pagesId);
      FirstKid(doc, pagesId, n, PageIds(n + 2, |rest|), content, Contents(rest));
    }
  }

  /** The reader's step over one kid. */
  lemma {:induction false} FirstKid(doc: Doc, pagesId: nat, n: nat, kids: seq<nat>, content: string,
                                    contents: seq<string>)
    requires ObjectOf(doc, n + 2).Some? && ObjectOf(doc, n + 1).Some?
    requires ParentOf(ObjectOf(doc, n + 2).value) == Some(pagesId)
    requires ContentsOf(ObjectOf(doc, n + 2).value) == Some(n + 1)
    ensures ReadKids(doc, pagesId, [n + 2] + kids) == Some([content] + contents)
            <==> (StreamData(ObjectOf(doc, n + 1).value) == Some(content)
                  && ReadKids(doc, pagesId, kids) == Some(contents))
  {
    assert ([n + 2] + kids)[1..] == kids;
    var data, rest := StreamData(ObjectOf(doc, n + 1).value), ReadKids(doc, pagesId, kids);
    if data.Some? && rest.Some? {
      ConsInjective(data.value, rest.value, content, contents);
    }
  }

  lemma {:induction false} ConsInjective(x: string, xs: seq<string>, y: string, ys: seq<string>)
    ensures [x] + xs == [y] + ys <==> x == y && xs == ys
  {
    if [x] + xs == [y] + ys {
      assert ([x] + xs)[0] == x && ([y] + ys)[0] == y;
      assert ([x] + xs)[1..] == xs && ([y] + ys)[1..] == ys;
    }
  }

  lemma {:induction false} RootHasNoE(ids: seq<nat>, pagesId: nat)
    ensures 'E' !in PagesBody(ids) && 'E' !in CatalogBody(pagesId)
  {
    RefsHaveNoE(ids);
    DigitsHaveNoE(|ids|);
    DigitsHaveNoE(pagesId);
    PagesBodyHasNoE(Join(Refs(ids), " "), Dec(|ids|));
  }

  lemma {:induction false} PagesBodyHasNoE(refs: string, count: string)
    requires 'E' !in refs && 'E' !in count
    ensures 'E' !in KIDS + refs + COUNT + count + DICT_END
  {
  }

  lemma {:induction false} RefsHaveNoE(ids: seq<nat>)
    ensures 'E' !in Join(Refs(ids), " ")
  {
    if ids != [] {
      DigitsHaveNoE(ids[0]);
      assert Refs(ids)[1..] == Refs(ids[1..]);
      RefsHaveNoE(ids[1..]);
    }
  }

  /** The catalog names the pages object, which lists the pages in order; every page names the
      pages object as its parent and its own content stream; and the contents read back exactly
      when no page holds the text of the parent placeholder. */
  lemma {:induction false} BuiltPagesReadBack(objects: seq<string>, images: seq<ImageSpec>, pages: seq<seq<string>>,
    deflate: Deflate)
    ensures var built := BuiltFrom(objects, images, pages, deflate);
            ReadPages(Doc(built.objects, built.catalog)) == Some(Contents(pages)) <==> AllFree(pages)
  {
    var base, imageIds, pagesId := BuiltLayout(objects, images, pages, deflate);
    var built := BuiltFrom(objects, images, pages, deflate);
    ResourcesHaveNoE(|objects| + 1, |objects| + 2, imageIds);
    HeldPagesRead(Doc(built.objects, built.catalog), |base|, pages,
                  Resources(|objects| + 1, |objects| + 2, imageIds), pagesId);
  }

  lemma {:induction false} HeldPagesRead(doc: Doc, n: nat, pages: seq<seq<string>>, resources: string, pagesId: nat)
    requires 'E' !in resources && pagesId == n + 2 * |pages| + 1 && doc.root == pagesId + 1
    requires Holds(doc, n, PageObjects(n, pages, resources), pagesId)
    requires Holds(doc, n + 2 * |pages|, [PagesBody(PageIds(n, |pages|)), CatalogBody(pagesId)], pagesId)
    ensures ReadPages(doc) == Some(Contents(pages)) <==> AllFree(pages)
  {
    KidsReadBack(doc, n, pages, resources, pagesId);
    RootReads(doc, n + 2 * |pages|, PageIds(n, |pages|), pagesId);
  }

  lemma {:induction false} RootReads(doc: Doc, n: nat, ids: seq<nat>, pagesId: nat)
    requires pagesId == n + 1 && doc.root == n + 2
    requires Holds(doc, n, [PagesBody(ids), CatalogBody(pagesId)], pagesId)
    ensures ReadPages(doc) == ReadKids(doc, pagesId, ids)
  {
    HoldsTwo(doc, n, PagesBody(ids), CatalogBody(pagesId), pagesId);
    RootHasNoE(ids, pagesId);
    PatchLeavesAlone(PagesBody(ids), pagesId);
    PatchLeavesAlone(CatalogBody(pagesId), pagesId);
    CatalogReads(pagesId);
    KidsRead(ids);
  }

  // ---------- the whole way: from the last byte of the file to the contents of the pages ----------

  function ReadFile(file: string): Option<seq<string>>
  {
    var doc :- ReadDoc(PDF, file);
    ReadPages(doc)
  }

  /** A written file gives back the contents of its pages, in order, exactly when every object
      starts within the first 10^10 bytes and no page holds the text of the placeholder. */
  lemma {:induction false} FileReadsBack(objects: seq<string>, images: seq<ImageSpec>, pages: seq<seq<string>>,
                                         deflate: Deflate)
    ensures var built := BuiltFrom(objects, images, pages, deflate);
            ReadFile(FileOf(PDF, built.objects, built.catalog)) == Some(Contents(pages))
            <==> AllFit(Offsets(PDF, built.objects, 1, |PDF.header|)) && AllFree(pages)
  {
    var built := BuiltFrom(objects, images, pages, deflate);
    WrittenFileReadsBack(built.objects, built.catalog);
    BuiltPagesReadBack(objects, images, pages, deflate);
  }

  /** A page that shows the placeholder's own text does not read back. */
  lemma {:induction false} PlaceholderPageIsLost(deflate: Deflate)
    ensures var built := BuiltFrom([], [], [[PARENT]], deflate);
            ReadFile(FileOf(PDF, built.objects, built.catalog)) != Some([PARENT])
  {
    var pages := [[PARENT]];
    FileReadsBack([], [], pages, deflate);
    assert ContentOf(pages[0]) == PARENT;
    assert Contents(pages) == [PARENT] by {
      assert pages[1..] == [];
    }
    HoldsItself(PARENT);
  }

  lemma {:induction false} HoldsItself(p: string)
    ensures Find(p, p, 0) == Some(0)
  {
    assert p[0..|p|] == p;
  }
}
