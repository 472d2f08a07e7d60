/** The bytes of a PDF file: objects, cross-reference table and trailer, as the builder prints
    them (section 7.5 of ISO 32000-1). A byte is a char below 256; deflating is a parameter. */
module PdfFormat {
  import opened Text
  import opened Bytes
  import opened PngDecode

  type Deflate = seq<byte> -> string

  // ---------- object bodies ----------

  const FONT := "<< /Type /Font /Subtype /Type1 /BaseFont /Helvetica >>"
  const FONT_BOLD := "<< /Type /Font /Subtype /Type1 /BaseFont /Helvetica-Bold >>"

  function Ref(id: nat): string
  {
    Dec(id) + REF
  }

  function StreamOf(data: string): string
  {
    "stream\n" + data + "\nendstream"
  }

  /** An image dictionary up to its end; the numbers are printed already. */
  function ImageDict(w: string, h: string, space: string, smask: string, length: string): string
  {
    "<< /Type /XObject /Subtype /Image /Width " + w + " /Height " + h + " /ColorSpace " + space +
    " /BitsPerComponent 8 /Filter /FlateDecode" + smask + " /Length " + length + " >>\n"
  }

  function AlphaBody(spec: ImageSpec, alpha: seq<byte>, deflate: Deflate): string
  {
    ImageDict(Dec(spec.w), Dec(spec.h), "/DeviceGray", "", Dec(|alpha|)) + StreamOf(deflate(alpha))
  }

  function ColorSpace(spec: ImageSpec): string
  {
    if |spec.rgb| == spec.w * spec.h then "/DeviceGray" else "/DeviceRGB"
  }

  function RgbBody(spec: ImageSpec, smask: string, deflate: Deflate): string
  {
    ImageDict(Dec(spec.w), Dec(spec.h), ColorSpace(spec), smask, Dec(|spec.rgb|)) + StreamOf(deflate(spec.rgb))
  }

  const LENGTH := "<< /Length "
  const STREAM := " >>\nstream\n"
  const ENDSTREAM := "\nendstream"

  function ContentBody(content: string): string
  {
    LENGTH + Dec(|content|) + STREAM + content + ENDSTREAM
  }

  function XObjects(imageIds: seq<nat>, from: nat): string
    requires from <= |imageIds|
    decreases |imageIds| - from
  {
    if from == |imageIds| then ""
    else "/Im" + Dec(from) + " " + Ref(imageIds[from]) + " " + XObjects(imageIds, from + 1)
  }

  function Resources(font: nat, bold: nat, imageIds: seq<nat>): string
  {
    var xobjects := XObjects(imageIds, 0);
    "<< /Font << /F1 " + Ref(font) + " /F2 " + Ref(bold) + " >>" +
    (if xobjects == "" then "" else " /XObject << " + xobjects + " >>") + " >>"
  }

  const PAGE := "<< /Type /Page "
  const PARENT := "/Parent PARENT 0 R"
  const PARENT_KEY := "/Parent "
  const REF := " 0 R"
  const MEDIA_BOX := " /MediaBox [0 0 595.0 842.0] /Resources "
  const CONTENTS := " /Contents "
  const REF_END := " 0 R >>"

  /** A page object; `parent` is the placeholder until the pages object is known. */
  function PageBody(parent: string, resources: string, content: nat): string
  {
    PAGE + parent + PageRest(resources, content)
  }

  function PageRest(resources: string, content: nat): string
  {
    MEDIA_BOX + resources + CONTENTS + Dec(content) + REF_END
  }

  const KIDS := "<< /Type /Pages /Kids ["
  const COUNT := "] /Count "
  const DICT_END := " >>"

  function Refs(ids: seq<nat>): seq<string>
  {
    if ids == [] then [] else [Ref(ids[0])] + Refs(ids[1..])
  }

  function PagesBody(pageIds: seq<nat>): string
  {
    KIDS + Join(Refs(pageIds), " ") + COUNT + Dec(|pageIds|) + DICT_END
  }

  const CATALOG := "<< /Type /Catalog /Pages "

  function CatalogBody(pagesId: nat): string
  {
    CATALOG + Dec(pagesId) + REF_END
  }

  // ---------- adding the objects, in the order of the builder ----------

  /** Objects so far, and the ids of interest among them. Ids count from one. */
  datatype Laid = Laid(objects: seq<string>, ids: seq<nat>)

  function AddImage(done: Laid, spec: ImageSpec, deflate: Deflate): Laid
  {
    match spec.alpha
    case None =>
      Laid(done.objects + [RgbBody(spec, "", deflate)], done.ids + [|done.objects| + 1])
    case Some(alpha) =>
      var alphaId := |done.objects| + 1;
      Laid(done.objects + [AlphaBody(spec, alpha, deflate), RgbBody(spec, " /SMask " + Ref(alphaId), deflate)],
           done.ids + [alphaId + 1])
  }

  function AddImages(done: Laid, images: seq<ImageSpec>, deflate: Deflate): Laid
    decreases |images|
  {
    if images == [] then done else AddImages(AddImage(done, images[0], deflate), images[1..], deflate)
  }

  function AddPage(done: Laid, parts: seq<string>, resources: string): Laid
  {
    var contentId := |done.objects| + 1;
    Laid(done.objects + [ContentBody(Join(parts, "\n")), PageBody(PARENT, resources, contentId)],
         done.ids + [contentId + 1])
  }

  function AddPages(done: Laid, pages: seq<seq<string>>, resources: string): Laid
    decreases |pages|
  {
    if pages == [] then done else AddPages(AddPage(done, pages[0], resources), pages[1..], resources)
  }

  /** Replace the placeholder in every object. */
  function Patched(objects: seq<string>, pagesId: nat): (patched: seq<string>)
    ensures |patched| == |objects|
    ensures forall i :: 0 <= i < |objects| ==> patched[i] == Patch(objects[i], pagesId)
  {
    seq(|objects|, i requires 0 <= i < |objects| => Patch(objects[i], pagesId))
  }

  function Patch(body: string, pagesId: nat): string
  {
    Replace(body, PARENT, PARENT_KEY + Ref(pagesId))
  }

  /** The finished object list. */
  datatype Built = Built(objects: seq<string>, catalog: nat)

  function BuiltFrom(objects: seq<string>, images: seq<ImageSpec>, pages: seq<seq<string>>, deflate: Deflate): Built
  {
    var font := |objects| + 1;
    var withImages := AddImages(Laid(objects + [FONT, FONT_BOLD], []), images, deflate);
    var resources := Resources(font, font + 1, withImages.ids);
    var withPages := AddPages(Laid(withImages.objects, []), pages, resources);
    var pagesId := |withPages.objects| + 1;
    var all := withPages.objects + [PagesBody(withPages.ids), CatalogBody(pagesId)];
    Built(Patched(all, pagesId), pagesId + 1)
  }

  // ---------- the file ----------

  /** The fixed texts of a file. Passing them around as one value keeps their letters out of the
      proofs about positions. */
  datatype Syntax = Syntax(
    header: string, obj: string, endobj: string, xref: string, free: string, inUse: string,
    trailer: string, root: string, startxref: string, eof: string)

  const PDF := Syntax(
    "%PDF-1.4\n%\U{E2}\U{E3}\U{CF}\U{D3}\n", " 0 obj\n", "\nendobj\n",
    "xref\n0 ", "0000000000 65535 f \n", " 00000 n \n",
    "trailer\n<< /Size ", " /Root ", " 0 R >>\nstartxref\n", "\n%%EOF\n")

  function Section(g: Syntax, id: nat, body: string): string
  {
    Dec(id) + g.obj + body + g.endobj
  }

  function Sections(g: Syntax, objects: seq<string>, first: nat): string
  {
    if objects == [] then "" else Section(g, first, objects[0]) + Sections(g, objects[1..], first + 1)
  }

  /** The positions of the objects when the first one starts at `pos`. */
  function Offsets(g: Syntax, objects: seq<string>, first: nat, pos: nat): (offsets: seq<nat>)
    ensures |offsets| == |objects|
  {
    if objects == [] then []
    else [pos] + Offsets(g, objects[1..], first + 1, pos + |Section(g, first, objects[0])|)
  }

  function Entry(g: Syntax, offset: nat): string
  {
    Pad10(offset) + g.inUse
  }

  function Entries(g: Syntax, offsets: seq<nat>): string
  {
    if offsets == [] then "" else Entry(g, offsets[0]) + Entries(g, offsets[1..])
  }

  /** The texts of a file that depend on its objects: their sections, the number of entries, the
      entries in use, the catalog id, and the position of the table. */
  datatype Texts = Texts(sections: string, count: string, entries: string, root: string, xref: string)

  function TextsOf(g: Syntax, objects: seq<string>, root: nat): Texts
  {
    var sections := Sections(g, objects, 1);
    Texts(sections, Dec(|objects| + 1), Entries(g, Offsets(g, objects, 1, |g.header|)), Dec(root),
          Dec(|g.header| + |sections|))
  }

  /** The pieces of a file. */
  function Pieces(g: Syntax, t: Texts): seq<string>
  {
    [g.header, t.sections, g.xref, t.count, "\n", g.free, t.entries,
     g.trailer, t.count, g.root, t.root, g.startxref, t.xref, g.eof]
  }

  function FileOf(g: Syntax, objects: seq<string>, root: nat): string
  {
    Flatten(Pieces(g, TextsOf(g, objects, root)))
  }
}
