/** Reading back what the builder prints. */
module PdfReadback {
  import opened Wrappers
  import opened Text
  import opened PdfFormat
  import opened PdfScan
  import opened PdfReader

  /** What the reader relies on: entries of twenty bytes without a letter t, a trailer that starts
      with one, and no digits next to the numbers. */
  ghost predicate Regular(g: Syntax)
  {
    |g.free| == 20 && |g.inUse| == 10 && !IsDigit(g.inUse[0]) && 't' !in g.free && 't' !in g.inUse &&
    g.trailer != "" && g.trailer[0] == 't' && g.root != "" && !IsDigit(g.root[0]) &&
    g.startxref != "" && !IsDigit(g.startxref[0]) && !IsDigit(g.startxref[|g.startxref| - 1])
  }

  lemma {:induction false} PdfIsRegular()
    ensures Regular(PDF)
  {
  }

  // ---------- the table ----------

  /** Every offset has at most ten digits. */
  ghost predicate AllFit(offsets: seq<nat>)
  {
    offsets != [] ==> offsets[0] < TEN_DIGITS && AllFit(offsets[1..])
  }

  lemma {:induction false} EntryLength(g: Syntax, offset: nat)
    requires Regular(g)
    ensures |Entry(g, offset)| == |Pad10(offset)| + 10
    ensures |Entry(g, offset)| >= 20 && (|Entry(g, offset)| == 20 <==> offset < TEN_DIGITS)
    ensures 't' !in Entry(g, offset)
  {
    Pad10Shape(offset);
  }

  /** Entries are twenty bytes each exactly when every offset has at most ten digits; longer
      offsets only make the table longer, and nowhere does the table hold a letter t. */
  lemma {:induction false} EntriesShape(g: Syntax, offsets: seq<nat>)
    requires Regular(g)
    ensures |Entries(g, offsets)| >= 20 * |offsets|
    ensures |Entries(g, offsets)| == 20 * |offsets| <==> AllFit(offsets)
    ensures 't' !in Entries(g, offsets)
  {
    if offsets != [] {
      var o, rest := offsets[0], offsets[1..];
      EntriesShape(g, rest);
      EntryLength(g, o);
    }
  }

  lemma {:induction false} EntryReads(g: Syntax, file: string, pos: nat, offset: nat)
    requires Regular(g)
    requires offset < TEN_DIGITS && At(file, Entry(g, offset), pos)
    ensures ReadEntry(g, file, pos) == Some(offset)
  {
    Pad10Shape(offset);
    AtSplit(file, Pad10(offset), g.inUse, pos);
    ReadNumberAt(file, pos, Pad10(offset));
  }

  /** One entry in front of the rest of the table. */
  lemma {:induction false} EntryStep(g: Syntax, file: string, pos: nat, offset: nat, rest: string)
    requires Regular(g)
    requires offset < TEN_DIGITS && At(file, Entry(g, offset) + rest, pos)
    ensures ReadEntry(g, file, pos) == Some(offset) && At(file, rest, pos + 20)
  {
    AtSplit(file, Entry(g, offset), rest, pos);
    EntryLength(g, offset);
    EntryReads(g, file, pos, offset);
  }

  // ---------- the objects ----------

  lemma {:induction false} ObjectReads(g: Syntax, file: string, id: nat, body: string, pos: nat, end: nat)
    requires At(file, Section(g, id, body), pos) && end == pos + |Section(g, id, body)|
    ensures ReadObject(g, file, id, pos, end) == Some(body)
  {
    AtSplit(file, Dec(id) + g.obj + body, g.endobj, pos);
    AtSplit(file, Dec(id) + g.obj, body, pos);
    AtIsSlice(file, body, pos + |Dec(id) + g.obj|);
  }

  /** The entries from `pos` on hold `offsets`. */
  ghost predicate EntriesAre(g: Syntax, file: string, pos: nat, offsets: seq<nat>)
    decreases |offsets|
  {
    offsets != [] ==> ReadEntry(g, file, pos) == Some(offsets[0]) && EntriesAre(g, file, pos + 20, offsets[1..])
  }

  lemma {:induction false} TableHoldsOffsets(g: Syntax, file: string, pos: nat, offsets: seq<nat>)
    requires Regular(g)
    requires AllFit(offsets) && At(file, Entries(g, offsets), pos)
    ensures EntriesAre(g, file, pos, offsets)
    decreases |offsets|
  {
    if offsets != [] {
      EntryStep(g, file, pos, offsets[0], Entries(g, offsets[1..]));
      TableHoldsOffsets(g, file, pos + 20, offsets[1..]);
    }
  }

  /** Reading the objects from `id` on, when `todo` are the bodies still to come. */
  lemma {:induction false} ObjectsRead(g: Syntax, file: string, pos: nat, todo: seq<string>, id: nat,
    entry: nat, count: nat, xref: nat)
    requires At(file, Sections(g, todo, id), pos) && xref == pos + |Sections(g, todo, id)|
    requires count == id + |todo|
    requires EntriesAre(g, file, entry, Offsets(g, todo, id, pos))
    ensures ReadObjects(g, file, entry, xref, id, count) == Some(todo)
    decreases |todo|
  {
    if todo != [] {
      var body, rest := todo[0], todo[1..];
      var section := Section(g, id, body);
      var end := pos + |section|;
      AtSplit(file, section, Sections(g, rest, id + 1), pos);
      ObjectReads(g, file, id, body, pos, end);
      ObjectsRead(g, file, end, rest, id + 1, entry + 20, count, xref);
      FirstObjectReads(g, file, entry, xref, id, count, pos, if rest == [] then xref else end, body, rest);
      assert [body] + rest == todo;
    }
  }

  /** One entry, the object it points to, and the objects behind it. */
  lemma {:induction false} FirstObjectReads(g: Syntax, file: string, entry: nat, xref: nat, id: nat, count: nat,
    offset: nat, end: nat, body: string, rest: seq<string>)
    requires id < count && ReadEntry(g, file, entry) == Some(offset)
    requires if id + 1 == count then end == xref else ReadEntry(g, file, entry + 20) == Some(end)
    requires ReadObject(g, file, id, offset, end) == Some(body)
    requires ReadObjects(g, file, entry + 20, xref, id + 1, count) == Some(rest)
    ensures ReadObjects(g, file, entry, xref, id, count) == Some([body] + rest)
  {
  }

  // ---------- the whole file ----------

  /** Where the pieces of a file are. */
  lemma {:induction false} PartsAt(parts: seq<string>) returns (at: seq<nat>)
    ensures |at| == |parts| + 1 && at[0] == 0 && at[|parts|] == |Flatten(parts)|
    ensures forall k :: 0 <= k < |parts| ==> At(Flatten(parts), parts[k], at[k]) && at[k + 1] == at[k] + |parts[k]|
  {
    at := seq(|parts| + 1, k requires 0 <= k <= |parts| => Start(parts, k));
    forall k | 0 <= k < |parts|
      ensures At(Flatten(parts), parts[k], at[k]) && at[k + 1] == at[k] + |parts[k]|
    {
      PartIsAt(parts, k);
    }
    StartOfEnd(parts);
  }

  /** The positions of the objects, the table, the free entry, the other entries, the trailer, and
      the texts around the numbers of the trailer. */
  datatype Places = Places(objects: nat, xref: nat, count: nat, free: nat, entries: nat, trailer: nat,
                           size: nat, root: nat, catalog: nat, startxref: nat, number: nat, eof: nat)

  ghost predicate Front(g: Syntax, file: string, t: Texts, at: Places)
  {
    at.objects == |g.header| && at.xref == at.objects + |t.sections| &&
    at.count == at.xref + |g.xref| && at.free == at.count + |t.count| + 1 &&
    at.entries == at.free + |g.free| && at.trailer == at.entries + |t.entries| &&
    At(file, t.sections, at.objects) && At(file, g.xref, at.xref) && At(file, t.count, at.count) &&
    At(file, "\n", at.free - 1) && At(file, g.free, at.free) && At(file, t.entries, at.entries)
  }

  ghost predicate Back(g: Syntax, file: string, t: Texts, at: Places)
  {
    at.size == at.trailer + |g.trailer| && at.root == at.size + |t.count| && at.catalog == at.root + |g.root| &&
    at.startxref == at.catalog + |t.root| && at.number == at.startxref + |g.startxref| &&
    at.eof == at.number + |t.xref| && at.eof + |g.eof| == |file| &&
    At(file, g.trailer, at.trailer) && At(file, t.count, at.size) && At(file, g.root, at.root) &&
    At(file, t.root, at.catalog) && At(file, g.startxref, at.startxref) &&
    At(file, t.xref, at.number) && At(file, g.eof, at.eof)
  }

  lemma {:induction false} PiecesAt(g: Syntax, t: Texts) returns (at: Places)
    ensures Front(g, Flatten(Pieces(g, t)), t, at) && Back(g, Flatten(Pieces(g, t)), t, at)
  {
    var p := Pieces(g, t);
    var i := PartsAt(p);
    assert i[0 + 1] == i[0] + |p[0]| && i[1 + 1] == i[1] + |p[1]| && i[2 + 1] == i[2] + |p[2]|;
    assert i[3 + 1] == i[3] + |p[3]| && i[4 + 1] == i[4] + |p[4]| && i[5 + 1] == i[5] + |p[5]|;
    assert i[6 + 1] == i[6] + |p[6]| && i[7 + 1] == i[7] + |p[7]| && i[8 + 1] == i[8] + |p[8]|;
    assert i[9 + 1] == i[9] + |p[9]| && i[10 + 1] == i[10] + |p[10]| && i[11 + 1] == i[11] + |p[11]|;
    assert i[12 + 1] == i[12] + |p[12]| && i[13 + 1] == i[13] + |p[13]|;
    at := Places(i[1], i[2], i[3], i[5], i[6], i[7], i[8], i[9], i[10], i[11], i[12], i[13]);
  }

  /** A number printed in front of a piece reads back. */
  lemma {:induction false} NumberPiece(file: string, digits: string, after: string, i: nat, j: nat)
    requires j == i + |digits|
    requires Number(digits) && At(file, digits, i) && At(file, after, j)
    requires after != "" && !IsDigit(after[0])
    ensures ReadNumber(file, i) == Some((Value(digits), j))
  {
    assert file[j + 0] == after[0];
    ReadNumberAt(file, i, digits);
  }

  /** A number printed behind a piece reads back from its end. */
  lemma {:induction false} NumberPieceBefore(file: string, before: string, digits: string, i: nat, e: nat)
    requires e == i + |digits| && Number(digits) && |before| <= i && At(file, before, i - |before|)
             && At(file, digits, i)
    requires before != "" && !IsDigit(before[|before| - 1])
    ensures ReadNumberBefore(file, e) == Some((Value(digits), i))
  {
    assert file[i - |before| + (|before| - 1)] == before[|before| - 1];
    ReadNumberBeforeAt(file, i, e, digits);
  }

  lemma {:induction false} TailReads(g: Syntax, file: string, d: nat, i: nat, e: nat, digits: string)
    requires Regular(g)
    requires e == |file| - |g.eof| && e == i + |digits| && i == d + |g.startxref|
    requires At(file, g.startxref, d) && Number(digits) && At(file, digits, i) && At(file, g.eof, e)
    ensures ReadTail(g, file) == Some((Value(digits), d))
  {
    NumberPieceBefore(file, g.startxref, digits, i, e);
  }

  lemma {:induction false} TableHeadReads(g: Syntax, file: string, xref: nat, i: nat, j: nat, digits: string)
    requires i == xref + |g.xref| && j == i + |digits|
    requires At(file, g.xref, xref) && Number(digits) && At(file, digits, i)
    requires At(file, "\n", j) && At(file, g.free, j + 1)
    ensures ReadTableHead(g, file, xref) == Some((Value(digits), j + 1))
  {
    NumberPiece(file, digits, "\n", i, j);
  }

  lemma {:induction false} TrailerReads(g: Syntax, file: string, pos: nat, i: nat, j: nat, k: nat, l: nat,
                                        size: string, root: string)
    requires Regular(g)
    requires i == pos + |g.trailer| && j == i + |size| && k == j + |g.root| && l == k + |root|
    requires Number(size) && Number(root)
    requires At(file, g.trailer, pos) && At(file, size, i) && At(file, g.root, j)
    requires At(file, root, k) && At(file, g.startxref, l)
    ensures ReadTrailer(g, file, pos, Value(size)) == Some((Value(root), l))
  {
    NumberPiece(file, size, g.root, i, j);
    NumberPiece(file, root, g.startxref, k, l);
  }

  /** Where a table is too long, the reader looks for the trailer inside the table. */
  lemma {:induction false} NoTrailerInside(g: Syntax, file: string, base: nat, entries: string, pos: nat)
    requires Regular(g)
    requires At(file, entries, base) && 't' !in entries && base <= pos < base + |entries|
    ensures !At(file, g.trailer, pos)
  {
    assert file[base + (pos - base)] == entries[pos - base];
    assert entries[pos - base] in entries;
    assert file[pos + 0] != g.trailer[0];
  }

  lemma {:induction false} FrontReads(g: Syntax, file: string, t: Texts, at: Places)
    requires Number(t.count) && Front(g, file, t, at)
    ensures ReadTableHead(g, file, at.xref) == Some((Value(t.count), at.free))
  {
    TableHeadReads(g, file, at.xref, at.count, at.free - 1, t.count);
  }

  lemma {:induction false} BackReads(g: Syntax, file: string, t: Texts, at: Places)
    requires Number(t.count) && Number(t.root) && Number(t.xref)
    requires Regular(g) && Back(g, file, t, at)
    ensures ReadTail(g, file) == Some((Value(t.xref), at.startxref))
    ensures ReadTrailer(g, file, at.trailer, Value(t.count)) == Some((Value(t.root), at.startxref))
  {
    TailReads(g, file, at.startxref, at.number, at.eof, t.xref);
    TrailerReads(g, file, at.trailer, at.size, at.root, at.catalog, at.startxref, t.count, t.root);
  }

  /** The entries lead to the objects, or there is no trailer where short entries would end. */
  ghost predicate MiddleRead(g: Syntax, file: string, entries: string, objects: seq<string>, xref: nat, entry: nat,
    fits: bool)
  {
    if fits then |entries| == 20 * |objects| && ReadObjects(g, file, entry, xref, 1, |objects| + 1) == Some(objects)
    else !At(file, g.trailer, entry + 20 * |objects|)
  }

  lemma {:induction false} MiddleFits(g: Syntax, file: string, offsets: seq<nat>, objects: seq<string>, pos: nat,
                                      xref: nat, entry: nat)
    requires Regular(g) && AllFit(offsets) && offsets == Offsets(g, objects, 1, pos)
    requires At(file, Sections(g, objects, 1), pos) && xref == pos + |Sections(g, objects, 1)|
    requires At(file, Entries(g, offsets), entry)
    ensures MiddleRead(g, file, Entries(g, offsets), objects, xref, entry, true)
  {
    EntriesShape(g, offsets);
    TableHoldsOffsets(g, file, entry, offsets);
    ObjectsRead(g, file, pos, objects, 1, entry, |objects| + 1, xref);
  }

  lemma {:induction false} MiddleOverflows(g: Syntax, file: string, offsets: seq<nat>, objects: seq<string>, xref: nat,
    entry: nat)
    requires Regular(g) && !AllFit(offsets) && |offsets| == |objects| && At(file, Entries(g, offsets), entry)
    ensures MiddleRead(g, file, Entries(g, offsets), objects, xref, entry, false)
  {
    EntriesShape(g, offsets);
    NoTrailerInside(g, file, entry, Entries(g, offsets), entry + 20 * |offsets|);
  }

  /** Putting the results of the reader's steps together. */
  lemma {:induction false} DocReads(g: Syntax, file: string, xref: nat, d: nat, table: nat, trailer: nat,
                                    objects: seq<string>, root: nat, fits: bool)
    requires ReadTail(g, file) == Some((xref, d))
    requires ReadTableHead(g, file, xref) == Some((|objects| + 1, table))
    requires trailer == table + 20 * (|objects| + 1)
    requires if fits then ReadTrailer(g, file, trailer, |objects| + 1) == Some((root, d)) &&
                          ReadObjects(g, file, table + 20, xref, 1, |objects| + 1) == Some(objects)
             else !At(file, g.trailer, trailer)
    ensures ReadDoc(g, file) == if fits then Some(Doc(objects, root)) else None
  {
  }

  /** The reader on a file whose texts are in their places. */
  lemma {:induction false} PlacedFileReads(g: Syntax, file: string, t: Texts, at: Places, objects: seq<string>,
    root: nat)
    requires Regular(g) && Front(g, file, t, at) && Back(g, file, t, at) && t == TextsOf(g, objects, root)
    ensures ReadDoc(g, file) == if AllFit(Offsets(g, objects, 1, |g.header|)) then Some(Doc(objects, root)) else None
  {
    NumbersOf(g, objects, root, t);
    var offsets := Offsets(g, objects, 1, |g.header|);
    if AllFit(offsets) {
      MiddleFits(g, file, offsets, objects, at.objects, at.xref, at.entries);
    } else {
      MiddleOverflows(g, file, offsets, objects, at.xref, at.entries);
    }
    PartsRead(g, file, t, at, objects, root, AllFit(offsets));
  }

  lemma {:induction false} NumbersOf(g: Syntax, objects: seq<string>, root: nat, t: Texts)
    requires t == TextsOf(g, objects, root)
    ensures Number(t.count) && Number(t.root) && Number(t.xref)
    ensures Value(t.count) == |objects| + 1 && Value(t.root) == root && Value(t.xref) == |g.header| + |t.sections|
    ensures t.sections == Sections(g, objects, 1) && t.entries == Entries(g, Offsets(g, objects, 1, |g.header|))
  {
  }

  lemma {:induction false} PartsRead(g: Syntax, file: string, t: Texts, at: Places, objects: seq<string>,
    root: nat, fits: bool)
    requires Regular(g) && Number(t.count) && Number(t.root) && Number(t.xref)
    requires Value(t.count) == |objects| + 1 && Value(t.root) == root && Value(t.xref) == at.xref
    requires Front(g, file, t, at) && Back(g, file, t, at)
    requires MiddleRead(g, file, t.entries, objects, at.xref, at.entries, fits)
    ensures ReadDoc(g, file) == if fits then Some(Doc(objects, root)) else None
  {
    FrontReads(g, file, t, at);
    BackReads(g, file, t, at);
    DocReads(g, file, at.xref, at.startxref, at.free, at.entries + 20 * |objects|, objects, root, fits);
  }

  /** Following startxref and the entries of the table recovers every object and the catalog id,
      exactly when no offset needs more than ten digits; otherwise the file is unreadable. */
  lemma {:induction false} ReaderRecoversObjects(g: Syntax, objects: seq<string>, root: nat)
    requires Regular(g)
    ensures ReadDoc(g, FileOf(g, objects, root))
         == if AllFit(Offsets(g, objects, 1, |g.header|)) then Some(Doc(objects, root)) else None
  {
    var t := TextsOf(g, objects, root);
    var at := PiecesAt(g, t);
    PlacedFileReads(g, FileOf(g, objects, root), t, at, objects, root);
  }

  /** The file the builder writes is readable from its end exactly when no offset needs more than
      ten digits, and then yields every object and the catalog. */
  lemma {:induction false} WrittenFileReadsBack(objects: seq<string>, root: nat)
    ensures ReadDoc(PDF, FileOf(PDF, objects, root))
         == if AllFit(Offsets(PDF, objects, 1, |PDF.header|)) then Some(Doc(objects, root)) else None
  {
    PdfIsRegular();
    ReaderRecoversObjects(PDF, objects, root);
  }

  /** An object of ten billion characters in front of another one: the file cannot be read. */
  lemma {:induction false} LongFileIsUnreadable()
    ensures ReadDoc(PDF, FileOf(PDF, [seq(TEN_DIGITS, i requires 0 <= i < TEN_DIGITS => 'x'), ""], 1)) == None
  {
    var big := seq(TEN_DIGITS, i requires 0 <= i < TEN_DIGITS => 'x');
    SecondOffset(PDF, big, "");
    WrittenFileReadsBack([big, ""], 1);
  }

  lemma {:induction false} SecondOffset(g: Syntax, first: string, second: string)
    requires |first| >= TEN_DIGITS
    ensures !AllFit(Offsets(g, [first, second], 1, |g.header|))
  {
    var offsets := Offsets(g, [first, second], 1, |g.header|);
    assert [first, second][1..] == [second];
    var next := |g.header| + |Section(g, 1, first)|;
    assert next >= |first|;
    assert offsets[1..] == Offsets(g, [second], 2, next);
    assert Offsets(g, [second], 2, next)[0] == next;
  }
}
