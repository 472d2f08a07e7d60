/** A reader that starts at the end of a PDF file, as section 7.5.5 of ISO 32000-1 prescribes: it
    follows startxref to the cross-reference table and each entry to its object. */
module PdfReader {
  import opened Wrappers
  import opened Text
  import opened PdfFormat
  import opened PdfScan

  /** The offset in the 20-byte entry of an object in use. */
  function ReadEntry(g: Syntax, file: string, pos: nat): Option<nat>
  {
    var (offset, end) :- ReadNumber(file, pos);
    if end == pos + 10 && At(file, g.inUse, end) then Some(offset) else None
  }

  /** The body of object `id`, which starts at `offset` and ends where the next thing starts. */
  function ReadObject(g: Syntax, file: string, id: nat, offset: nat, end: nat): Option<string>
  {
    var start := offset + |Dec(id)| + |g.obj|;
    if At(file, Dec(id) + g.obj, offset) && start + |g.endobj| <= end <= |file|
       && At(file, g.endobj, end - |g.endobj|)
    then Some(file[start..end - |g.endobj|])
    else None
  }

  /** The bodies of objects id, id + 1, ..., count - 1; the entry of object `id` is at `pos`. */
  function ReadObjects(g: Syntax, file: string, pos: nat, xref: nat, id: nat, count: nat): Option<seq<string>>
    decreases count - id
  {
    if id >= count then Some([])
    else
      var offset :- ReadEntry(g, file, pos);
      var end :- if id + 1 == count then Some(xref) else ReadEntry(g, file, pos + 20);
      var body :- ReadObject(g, file, id, offset, end);
      var rest :- ReadObjects(g, file, pos + 20, xref, id + 1, count);
      Some([body] + rest)
  }

  /** The object list of a file and the id of its catalog. */
  datatype Doc = Doc(objects: seq<string>, root: nat)

  /** The position of the cross-reference table, and where the text in front of its number ends. */
  function ReadTail(g: Syntax, file: string): Option<(nat, nat)>
  {
    if |file| < |g.eof| || !At(file, g.eof, |file| - |g.eof|) then None
    else
      var (xref, d) :- ReadNumberBefore(file, |file| - |g.eof|);
      if d >= |g.startxref| && At(file, g.startxref, d - |g.startxref|) then Some((xref, d - |g.startxref|)) else None
  }

  /** The number of entries of the table at `xref`, and the position of entry 0. */
  function ReadTableHead(g: Syntax, file: string, xref: nat): Option<(nat, nat)>
  {
    if !At(file, g.xref, xref) then None
    else
      var (count, i) :- ReadNumber(file, xref + |g.xref|);
      if At(file, "\n", i) && At(file, g.free, i + 1) then Some((count, i + 1)) else None
  }

  /** The catalog id in the trailer that starts at `pos`, and the position behind it. */
  function ReadTrailer(g: Syntax, file: string, pos: nat, count: nat): Option<(nat, nat)>
  {
    if !At(file, g.trailer, pos) then None
    else
      var (size, k) :- ReadNumber(file, pos + |g.trailer|);
      if size == count && At(file, g.root, k) then ReadNumber(file, k + |g.root|) else None
  }

  function ReadDoc(g: Syntax, file: string): Option<Doc>
  {
    var (xref, d) :- ReadTail(g, file);
    var (count, table) :- ReadTableHead(g, file, xref);
    var (root, m) :- ReadTrailer(g, file, table + 20 * count, count);
    var objects :- ReadObjects(g, file, table + 20, xref, 1, count);
    if m == d then Some(Doc(objects, root)) else None
  }
}
