/** What a reader of a report's file sees: the report. */
module ReportFile {
  import opened Text
  import opened PngDecode
  import opened PdfString
  import opened PdfFormat
  import opened PdfReader
  import opened PdfReadback
  import opened PdfDrawing
  import opened PdfDocument
  import opened PdfImages
  import opened PdfPictures
  import opened PdfShapes
  import opened ReportLayout
  import opened ReportContent
  import opened PdfPlaceholder
  import opened ReportPdf

  /** A shape that was read shows a piece of the report: the text in WinAnsi bytes with end-of-line markers
      normalised, in its face, size and shade; the object of one of the pictures; or the rule. */
  ghost predicate Displays(shape: Shape, piece: Piece, images: seq<ImageSpec>, ids: seq<nat>)
  {
    match piece
    case TextPiece(text, size, bold, gray) =>
      shape.TextShape? && shape.bytes == NormalizeEol(WinBytes(text)) && shape.size == 100 * size
      && shape.face == (if bold then "Helvetica-Bold" else "Helvetica") && shape.shade == (gray, gray, gray)
    case PicturePiece(spec) =>
      shape.ImageShape? && exists k :: 0 <= k < |images| == |ids| && images[k] == spec && ids[k] == shape.id
    case RulePiece => shape.RuleShape?
  }

  ghost predicate AllDisplay(shapes: seq<Shape>, pieces: seq<Piece>, images: seq<ImageSpec>, ids: seq<nat>)
  {
    |shapes| == |pieces| && forall k :: 0 <= k < |pieces| ==> Displays(shapes[k], pieces[k], images, ids)
  }

  lemma {:induction false} AllDisplayConcat(a: seq<Shape>, b: seq<Shape>, p: seq<Piece>, q: seq<Piece>,
                                            images: seq<ImageSpec>, ids: seq<nat>)
    requires AllDisplay(a, p, images, ids) && AllDisplay(b, q, images, ids)
    ensures AllDisplay(a + b, p + q, images, ids)
  {
    forall k | 0 <= k < |p + q| ensures Displays((a + b)[k], (p + q)[k], images, ids) {
      if k < |p| {
        assert (a + b)[k] == a[k] && (p + q)[k] == p[k];
      } else {
        assert (a + b)[k] == b[k - |a|] && (p + q)[k] == q[k - |p|];
      }
    }
  }

  lemma {:induction false} OpsDisplay(ops: seq<Op>, images: seq<ImageSpec>, ids: seq<nat>)
    requires |images| == |ids| && Indexed(ops, |images|)
    ensures AllDisplay(ShapesOf(ops, ids), PiecesOf(ops, images), images, ids)
  {
    if ops != [] {
      assert ops[0] in ops;
      OpsDisplay(ops[1..], images, ids);
      assert Displays(ShapeOf(ops[0], ids), PieceOf(ops[0], images), images, ids);
      AllDisplayConcat([ShapeOf(ops[0], ids)], ShapesOf(ops[1..], ids), [PieceOf(ops[0], images)],
                       PiecesOf(ops[1..], images), images, ids);
    }
  }

  lemma {:induction false} PagesDisplay(pages: seq<seq<Op>>, images: seq<ImageSpec>, ids: seq<nat>)
    requires |images| == |ids| && AllIndexed(pages, |images|)
    ensures AllDisplay(Flatten(PageShapes(pages, ids)), PagePieces(pages, images), images, ids)
  {
    if pages != [] {
      assert pages[0] in pages;
      OpsDisplay(pages[0], images, ids);
      PagesDisplay(pages[1..], images, ids);
      assert PageShapes(pages, ids)[1..] == PageShapes(pages[1..], ids);
      AllDisplayConcat(ShapesOf(pages[0], ids), Flatten(PageShapes(pages[1..], ids)), PiecesOf(pages[0], images),
                       PagePieces(pages[1..], images), images, ids);
    }
  }

  /** The whole way: from the bytes of a report's file a reader gets the shapes on its pages, with places, fonts
      and pictures; in order they display pieces of text and pictures that show exactly the report's fields. */
  lemma {:induction false} FileShowsReport(report: Report, inflate: Inflate, deflate: Deflate)
    requires AllTextsFree(AllLines(Paras(report, inflate)), PARENT)
    requires AllFit(Offsets(PDF, BuiltReport(report, inflate, deflate).objects, 1, |PDF.header|))
    ensures var r := LaidOut(report, inflate);
            var shapes := ReadShapes(Rendered(report, inflate, deflate));
            AllIndexed(r.pages, |r.images|) && shapes.Some?
            && AllDisplay(Flatten(shapes.value), PagePieces(r.pages, r.images), r.images,
                          ImageIds([], r.images, deflate))
            && Seen(PagePieces(r.pages, r.images)) == ReportShows(report, inflate)
  {
    var r := LaidOut(report, inflate);
    PagesShowReport(report, inflate);
    LayoutIsLossless(report, inflate);
    AllLinesOneLine(Paras(report, inflate));
    PagesOneLine(r.pages);
    FreePages(r.pages);
    FileShows([], r.images, r.pages, deflate);
    PagesDisplay(r.pages, r.images, ImageIds([], r.images, deflate));
  }

  /** And under the ids of the pictures among these shapes it finds the decoded images with their masks, as long
      as their compressed bytes do not happen to hold the placeholder. */
  lemma {:induction false} ReportPicturesAreFound(report: Report, inflate: Inflate, deflate: Deflate)
    requires AllFit(Offsets(PDF, BuiltReport(report, inflate, deflate).objects, 1, |PDF.header|))
    ensures var r := LaidOut(report, inflate);
            var ids, doc := ImageIds([], r.images, deflate), ReadDoc(PDF, Rendered(report, inflate, deflate));
            doc.Some? && |ids| == |r.images| && forall k :: 0 <= k < |ids| ==>
              ImageIsFree(r.images[k], deflate) ==> IsFound(doc.value, ids[k], r.images[k], deflate)
  {
    var r := LaidOut(report, inflate);
    FilePictures([], r.images, PrintedPages(r.pages), deflate);
  }
}
