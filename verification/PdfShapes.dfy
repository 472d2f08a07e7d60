/** Reading a whole file back to what its pages draw: through the table, the catalog and the pages to their
    contents, and through their resources to fonts and pictures. */
module PdfShapes {
  import opened Wrappers
  import opened PngDecode
  import opened PdfString
  import opened PdfFormat
  import opened PdfReader
  import opened PdfReadback
  import opened PdfPages
  import opened PdfDrawing
  import opened PdfDocument
  import opened PdfResources
  import opened PdfGraphics

  /** Something on a page, in hundredths of a point: a text with the face of its font, the picture in some
      object, or a rule. */
  datatype Shape =
    | TextShape(x: int, y: int, size: int, shade: (int, int, int), face: string, bytes: string)
    | ImageShape(x: int, y: int, w: int, h: int, id: nat)
    | RuleShape(x1: int, y1: int, x2: int, y2: int, width: int, shade: (int, int, int))

  // ---------- the reader ----------

  function Resolved(mark: Mark, page: string, doc: Doc): Option<Shape>
  {
    match mark
    case TextMark(x, y, size, shade, font, bytes) =>
      var id :- Lookup(page, font + " ");
      var body :- ObjectOf(doc, id);
      var face :- FaceOf(body);
      Some(TextShape(x, y, size, shade, face, bytes))
    case ImageMark(x, y, w, h, name) =>
      var id :- Lookup(page, name + " ");
      Some(ImageShape(x, y, w, h, id))
    case RuleMark(x1, y1, x2, y2, width, shade) => Some(RuleShape(x1, y1, x2, y2, width, shade))
  }

  function ResolvedAll(marks: seq<Mark>, page: string, doc: Doc): Option<seq<Shape>>
  {
    if marks == [] then Some([])
    else
      var first :- Resolved(marks[0], page, doc);
      var rest :- ResolvedAll(marks[1..], page, doc);
      Some([first] + rest)
  }

  function ReadPage(doc: Doc, id: nat): Option<seq<Shape>>
  {
    var page :- ObjectOf(doc, id);
    var contentId :- ContentsOf(page);
    var stream :- ObjectOf(doc, contentId);
    var content :- StreamData(stream);
    var marks :- ReadMarks(content);
    ResolvedAll(marks, page, doc)
  }

  function ReadEach(doc: Doc, kids: seq<nat>): Option<seq<seq<Shape>>>
  {
    if kids == [] then Some([])
    else
      var first :- ReadPage(doc, kids[0]);
      var rest :- ReadEach(doc, kids[1..]);
      Some([first] + rest)
  }

  function KidsOfDoc(doc: Doc): Option<seq<nat>>
  {
    var catalog :- ObjectOf(doc, doc.root);
    var pagesId :- CatalogPages(catalog);
    var pages :- ObjectOf(doc, pagesId);
    KidsOf(pages)
  }

  /** What the pages of a file draw, from its last byte on. */
  function ReadShapes(file: string): Option<seq<seq<Shape>>>
  {
    var doc :- ReadDoc(PDF, file);
    var kids :- KidsOfDoc(doc);
    ReadEach(doc, kids)
  }

  // ---------- what should be read ----------

  /** Where an operation draws what, when picture k is in object ids[k]. */
  function ShapeOf(op: Op, ids: seq<nat>): Shape
    requires op.ImageOp? ==> op.index < |ids|
  {
    match op
    case TextOp(x, y, size, text, bold, gray) =>
      TextShape(100 * x, 100 * y, 100 * size, (gray, gray, gray), if bold then "Helvetica-Bold" else "Helvetica",
                NormalizeEol(WinBytes(text)))
    case ImageOp(index, x, y, w, h) => ImageShape(100 * x, 100 * y, 100 * w, 100 * h, ids[index])
    case RuleOp(x1, y1, x2, y2, gray) =>
      RuleShape(100 * x1, 100 * y1, 100 * x2, 100 * y2, 70, (gray, gray, gray))
  }

  /** Every picture drawn is one of n. */
  ghost predicate Indexed(ops: seq<Op>, n: nat)
  {
    forall op :: op in ops && op.ImageOp? ==> op.index < n
  }

  ghost predicate AllIndexed(pages: seq<seq<Op>>, n: nat)
  {
    forall page :: page in pages ==> Indexed(page, n)
  }

  function ShapesOf(ops: seq<Op>, ids: seq<nat>): seq<Shape>
    requires Indexed(ops, |ids|)
  {
    if ops == [] then [] else
    assert ops[0] in ops;
    [ShapeOf(ops[0], ids)] + ShapesOf(ops[1..], ids)
  }

  function PageShapes(pages: seq<seq<Op>>, ids: seq<nat>): seq<seq<Shape>>
    requires AllIndexed(pages, |ids|)
  {
    if pages == [] then [] else
    assert pages[0] in pages;
    [ShapesOf(pages[0], ids)] + PageShapes(pages[1..], ids)
  }

  /** The content streams of drawn pages. */
  function PrintedPages(drawn: seq<seq<Op>>): seq<seq<string>>
  {
    if drawn == [] then [] else [PrintedAll(drawn[0])] + PrintedPages(drawn[1..])
  }

  // ---------- the reader reads it ----------

  /** The fonts and the page object as the reader needs them. */
  ghost predicate Usable(doc: Doc, page: string, ids: seq<nat>)
  {
    (exists font, bold :: Lookup(page, "/F1 ") == Some(font) && ObjectOf(doc, font) == Some(FONT)
                          && Lookup(page, "/F2 ") == Some(bold) && ObjectOf(doc, bold) == Some(FONT_BOLD))
    && forall k :: 0 <= k < |ids| ==> Lookup(page, ImageKey(k)) == Some(ids[k])
  }

  lemma {:induction false} MarkResolves(op: Op, page: string, doc: Doc, ids: seq<nat>)
    requires Usable(doc, page, ids) && (op.ImageOp? ==> op.index < |ids|)
    ensures Resolved(MarkOf(op), page, doc) == Some(ShapeOf(op, ids))
  {
    if op.TextOp? {
      FontResolves(MarkOf(op), op.bold, page, doc, ids);
    }
  }

  lemma {:induction false} FontResolves(mark: Mark, bold: bool, page: string, doc: Doc, ids: seq<nat>)
    requires Usable(doc, page, ids) && mark.TextMark? && mark.font == if bold then "/F2" else "/F1"
    ensures Resolved(mark, page, doc)
         == Some(TextShape(mark.x, mark.y, mark.size, mark.shade, if bold then "Helvetica-Bold" else "Helvetica",
                           mark.bytes))
  {
    FacesRead();
    var key := mark.font + " ";
    assert key == if bold then "/F2 " else "/F1 ";
  }

  lemma {:induction false} MarksResolve(ops: seq<Op>, page: string, doc: Doc, ids: seq<nat>)
    requires Usable(doc, page, ids) && Indexed(ops, |ids|)
    ensures ResolvedAll(MarksOf(ops), page, doc) == Some(ShapesOf(ops, ids))
  {
    if ops != [] {
      assert ops[0] in ops;
      MarkResolves(ops[0], page, doc, ids);
      MarksResolve(ops[1..], page, doc, ids);
      assert MarksOf(ops)[1..] == MarksOf(ops[1..]);
    }
  }

  /** The page object of a finished page. */
  function Page(pagesId: nat, font: nat, bold: nat, ids: seq<nat>, content: nat): string
  {
    PageBody(PARENT_KEY + Ref(pagesId), Resources(font, bold, ids), content)
  }

  lemma {:induction false} PageIsUsable(doc: Doc, pagesId: nat, font: nat, bold: nat, ids: seq<nat>, content: nat)
    requires ObjectOf(doc, font) == Some(FONT) && ObjectOf(doc, bold) == Some(FONT_BOLD)
    ensures Usable(doc, Page(pagesId, font, bold, ids, content), ids)
  {
    PageFontLookup(pagesId, font, bold, ids, content);
    forall k | 0 <= k < |ids|
      ensures Lookup(Page(pagesId, font, bold, ids, content), ImageKey(k)) == Some(ids[k])
    {
      PageImageLookup(pagesId, font, bold, ids, content, k);
    }
  }

  lemma {:induction false} HeldPage(doc: Doc, n: nat, content: string, font: nat, bold: nat, ids: seq<nat>,
                                    pagesId: nat)
    requires Holds(doc, n, [ContentBody(content), PageBody(PARENT, Resources(font, bold, ids), n + 1)], pagesId)
    ensures ObjectOf(doc, n + 2) == Some(Page(pagesId, font, bold, ids, n + 1))
  {
    ResourcesHaveNoE(font, bold, ids);
    HoldsTwo(doc, n, ContentBody(content), PageBody(PARENT, Resources(font, bold, ids), n + 1), pagesId);
    PatchSetsParent(Resources(font, bold, ids), n + 1, pagesId);
  }

  /** One page: its content is read, and its names lead to its fonts and pictures. */
  lemma {:induction false} PageReads(doc: Doc, n: nat, ops: seq<Op>, font: nat, bold: nat, ids: seq<nat>, pagesId: nat)
    requires ObjectOf(doc, font) == Some(FONT) && ObjectOf(doc, bold) == Some(FONT_BOLD)
    requires Indexed(ops, |ids|) && AllOneLine(ops) && PlaceholderFree(ContentOf(PrintedAll(ops)))
    requires Holds(doc, n, [ContentBody(ContentOf(PrintedAll(ops))),
                            PageBody(PARENT, Resources(font, bold, ids), n + 1)], pagesId)
    ensures ReadPage(doc, n + 2) == Some(ShapesOf(ops, ids))
  {
    var content := ContentOf(PrintedAll(ops));
    ResourcesHaveNoE(font, bold, ids);
    OnePageReads(doc, n, content, Resources(font, bold, ids), pagesId);
    HeldPage(doc, n, content, font, bold, ids, pagesId);
    ContentReadsBack(ops);
    PageIsUsable(doc, pagesId, font, bold, ids, n + 1);
    MarksResolve(ops, Page(pagesId, font, bold, ids, n + 1), doc, ids);
  }

  ghost predicate AllPagesOneLine(pages: seq<seq<Op>>)
  {
    pages != [] ==> AllOneLine(pages[0]) && AllPagesOneLine(pages[1..])
  }

  lemma {:induction false} EachReads(doc: Doc, n: nat, drawn: seq<seq<Op>>, font: nat, bold: nat, ids: seq<nat>,
                                     pagesId: nat)
    requires ObjectOf(doc, font) == Some(FONT) && ObjectOf(doc, bold) == Some(FONT_BOLD)
    requires AllIndexed(drawn, |ids|) && AllPagesOneLine(drawn) && AllFree(PrintedPages(drawn))
    requires Holds(doc, n, PageObjects(n, PrintedPages(drawn), Resources(font, bold, ids)), pagesId)
    ensures ReadEach(doc, PageIds(n, |drawn|)) == Some(PageShapes(drawn, ids))
    decreases |drawn|
  {
    if drawn != [] {
      assert drawn[0] in drawn;
      FirstHolds(doc, n, PrintedAll(drawn[0]), PrintedPages(drawn[1..]), Resources(font, bold, ids), pagesId);
      PageReads(doc, n, drawn[0], font, bold, ids, pagesId);
      EachReads(doc, n + 2, drawn[1..], font, bold, ids, pagesId);
      FirstOfEach(doc, n, |drawn| - 1);
    }
  }

  lemma {:induction false} FirstHolds(doc: Doc, n: nat, page: seq<string>, rest: seq<seq<string>>, resources: string,
                                      pagesId: nat)
    requires Holds(doc, n, PageObjects(n, [page] + rest, resources), pagesId)
    ensures Holds(doc, n, [ContentBody(ContentOf(page)), PageBody(PARENT, resources, n + 1)], pagesId)
    ensures Holds(doc, n + 2, PageObjects(n + 2, rest, resources), pagesId)
    ensures AllFree([page] + rest) ==> PlaceholderFree(ContentOf(page)) && AllFree(rest)
  {
    assert ([page] + rest)[1..] == rest;
    HoldsSplit(doc, n, [ContentBody(ContentOf(page)), PageBody(PARENT, resources, n + 1)],
               PageObjects(n + 2, rest, resources), pagesId);
  }

  lemma {:induction false} FirstOfEach(doc: Doc, n: nat, count: nat)
    requires ReadPage(doc, n + 2).Some? && ReadEach(doc, PageIds(n + 2, count)).Some?
    ensures ReadEach(doc, PageIds(n, count + 1))
         == Some([ReadPage(doc, n + 2).value] + ReadEach(doc, PageIds(n + 2, count)).value)
  {
    assert PageIds(n, count + 1)[1..] == PageIds(n + 2, count);
  }

  lemma {:induction false} PrintedLength(drawn: seq<seq<Op>>)
    ensures |PrintedPages(drawn)| == |drawn|
  {
    if drawn != [] {
      PrintedLength(drawn[1..]);
    }
  }

  lemma {:induction false} RootKids(doc: Doc, n: nat, ids: seq<nat>, pagesId: nat)
    requires pagesId == n + 1 && doc.root == n + 2
    requires Holds(doc, n, [PagesBody(ids), CatalogBody(pagesId)], pagesId)
    ensures KidsOfDoc(doc) == Some(ids)
  {
    HoldsTwo(doc, n, PagesBody(ids), CatalogBody(pagesId), pagesId);
    RootHasNoE(ids, pagesId);
    PatchLeavesAlone(PagesBody(ids), pagesId);
    PatchLeavesAlone(CatalogBody(pagesId), pagesId);
    CatalogReads(pagesId);
    KidsRead(ids);
  }

  lemma {:induction false} FontsHeld(doc: Doc, objects: seq<string>, base: seq<string>, pagesId: nat)
    requires Holds(doc, 0, base, pagesId) && objects + [FONT, FONT_BOLD] <= base
    ensures ObjectOf(doc, |objects| + 1) == Some(FONT) && ObjectOf(doc, |objects| + 2) == Some(FONT_BOLD)
  {
    var n := |objects|;
    assert (objects + [FONT, FONT_BOLD])[n] == FONT && (objects + [FONT, FONT_BOLD])[n + 1] == FONT_BOLD;
    assert base[n] == FONT && base[n + 1] == FONT_BOLD;
    assert doc.objects[0 + n] == Patch(base[n], pagesId) && doc.objects[0 + (n + 1)] == Patch(base[n + 1], pagesId);
    FontsHaveNoE();
    PatchLeavesAlone(FONT, pagesId);
    PatchLeavesAlone(FONT_BOLD, pagesId);
  }

  lemma {:induction false} FontsHaveNoE()
    ensures 'E' !in FONT && 'E' !in FONT_BOLD
  {
    PlainFont();
    BoldFont();
    assert 'E' !in TYPE1 && 'E' !in "/BaseFont /" && 'E' !in "Helvetica" && 'E' !in "Helvetica-Bold" && 'E' !in " >>";
  }

  /** A written document gives back what was drawn on its pages. */
  lemma {:induction false} DocumentShows(objects: seq<string>, images: seq<ImageSpec>, drawn: seq<seq<Op>>,
                                         deflate: Deflate)
    requires AllIndexed(drawn, |images|) && AllPagesOneLine(drawn) && AllFree(PrintedPages(drawn))
    ensures var built := BuiltFrom(objects, images, PrintedPages(drawn), deflate);
            var ids := ImageIds(objects, images, deflate);
            var doc := Doc(built.objects, built.catalog);
            |ids| == |images| && KidsOfDoc(doc).Some?
            && ReadEach(doc, KidsOfDoc(doc).value) == Some(PageShapes(drawn, ids))
  {
    var pages := PrintedPages(drawn);
    var built := BuiltFrom(objects, images, pages, deflate);
    var doc := Doc(built.objects, built.catalog);
    var base, ids, pagesId := BuiltLayout(objects, images, pages, deflate);
    PrintedLength(drawn);
    RootKids(doc, pagesId - 1, PageIds(|base|, |pages|), pagesId);
    FontsHeld(doc, objects, base, pagesId);
    EachReads(doc, |base|, drawn, |objects| + 1, |objects| + 2, ids, pagesId);
  }

  /** From the bytes of a written file a reader gets every text with its face, size, shade, place and bytes,
      every picture with its place, size and object, and every rule, page by page in drawing order. */
  lemma {:induction false} FileShows(objects: seq<string>, images: seq<ImageSpec>, drawn: seq<seq<Op>>,
                                     deflate: Deflate)
    requires AllIndexed(drawn, |images|) && AllPagesOneLine(drawn) && AllFree(PrintedPages(drawn))
    requires AllFit(Offsets(PDF, BuiltFrom(objects, images, PrintedPages(drawn), deflate).objects, 1, |PDF.header|))
    ensures var built := BuiltFrom(objects, images, PrintedPages(drawn), deflate);
            |ImageIds(objects, images, deflate)| == |images|
            && ReadShapes(FileOf(PDF, built.objects, built.catalog))
               == Some(PageShapes(drawn, ImageIds(objects, images, deflate)))
  {
    var built := BuiltFrom(objects, images, PrintedPages(drawn), deflate);
    WrittenFileReadsBack(built.objects, built.catalog);
    DocumentShows(objects, images, drawn, deflate);
  }
}
