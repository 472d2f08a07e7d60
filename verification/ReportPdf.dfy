/** Rendering a report to a PDF file, and reading the file back. */
module ReportPdf {
  import opened Wrappers
  import opened Text
  import opened Bytes
  import opened PngDecode
  import opened WordWrap
  import opened PdfFormat
  import opened PdfReadback
  import opened PdfDrawing
  import opened PdfDocument
  import opened PdfBuilder
  import opened PdfPlaceholder
  import opened PdfShapes
  import opened ReportLayout

  /** The state of render_report_pdf: the builder and the vertical position. */
  class Renderer {
    const b: Builder
    var y: int

    ghost predicate Valid()
      reads this, b
    {
      b.Valid() && b.pages != []
    }

    /** What has been laid out so far. */
    ghost function State(): Sheet
      reads this, b
    {
      Sheet(b.drawn, y, b.images)
    }

    constructor ()
      ensures Valid() && fresh(b) && State() == BLANK && b.objects == []
    {
      var builder := new Builder();
      builder.NewPage();
      b, y := builder, TOP;
    }

    method EnsureSpace(space: int)
      requires Valid()
      modifies this`y, b`pages, b`drawn
      ensures Valid() && State() == Ensure(old(State()), space)
    {
      if y - space < MARGIN {
        b.NewPage();
        y := TOP;
      }
    }

    method MoveDown(points: int)
      requires Valid()
      modifies this`y
      ensures Valid() && State() == Down(old(State()), points)
    {
      y := y - points;
    }

    /** One line of a paragraph. */
    method Line(line: string, style: Style)
      requires Valid()
      modifies this`y, b`pages, b`drawn
      ensures Valid() && State() == WithLine(old(State()), line, style)
    {
      EnsureSpace(style.size + LINE_GAP);
      MoveDown(style.size + LINE_GAP);
      DrawOp(LineOp(y, line, style));
    }

    method DrawOp(op: Op)
      requires Valid()
      modifies b`pages, b`drawn
      ensures Valid() && State() == Drawn(old(State()), op)
    {
      b.Draw(op);
    }

    method Lines(lines: seq<string>, style: Style)
      requires Valid()
      modifies this`y, b`pages, b`drawn
      ensures Valid() && State() == WithLines(old(State()), lines, style)
    {
      for i := 0 to |lines|
        invariant Valid() && b.images == old(b.images)
        invariant WithLines(old(State()), lines, style) == WithLines(State(), lines[i..], style)
      {
        assert lines[i..][1..] == lines[i + 1..];
        Line(lines[i], style);
      }
    }

    method Paragraph(p: Para)
      requires Valid()
      modifies this`y, b`pages, b`drawn
      ensures Valid() && State() == WithPara(old(State()), p)
    {
      var lines := Wrap(p.text, ColumnOf(p));
      Lines(lines, p.style);
      MoveDown(p.style.gap);
    }

    method Paragraphs(paras: seq<Para>)
      requires Valid()
      modifies this`y, b`pages, b`drawn
      ensures Valid() && State() == WithParas(old(State()), paras)
    {
      for i := 0 to |paras|
        invariant Valid() && b.images == old(b.images)
        invariant WithParas(old(State()), paras) == WithParas(State(), paras[i..])
      {
        assert paras[i..][1..] == paras[i + 1..];
        Paragraph(paras[i]);
      }
    }

    /** A picture in a box of its own, or nothing if it cannot be decoded. */
    method Picture(png: seq<byte>, inflate: Inflate) returns (drawn: bool)
      requires Valid()
      modifies this`y, b`pages, b`drawn, b`images
      ensures Valid() && drawn == PdfImageOf(png, inflate).Some?
      ensures State() == if drawn then WithImage(old(State()), PdfImageOf(png, inflate).value) else old(State())
    {
      y := y - 230;
      drawn := b.DrawImage(png, MARGIN, y, COLUMN_WIDTH, 225, inflate);
      if !drawn {
        y := y + 230;
      }
    }

    method Chart(section: Section, inflate: Inflate)
      requires Valid()
      modifies this`y, b`pages, b`drawn, b`images
      ensures Valid() && State() == WithChart(old(State()), section, inflate)
    {
      var drawn := false;
      if section.chart.Some? {
        EnsureSpace(240);
        drawn := Picture(section.chart.value, inflate);
      }
      if !drawn {
        Paragraph(CHART_NOTE);
      }
    }

    method RenderSection(section: Section, inflate: Inflate)
      requires Valid()
      modifies this`y, b`pages, b`drawn, b`images
      ensures Valid() && State() == WithSection(old(State()), section, inflate)
    {
      EnsureSpace(90);
      Paragraph(SectionTitle(section));
      Paragraph(SectionMeta(section));
      Chart(section, inflate);
      if section.narrative != "" {
        Paragraph(NarrativePara(section));
      } else {
        MoveDown(8);
      }
    }

    method Rule()
      requires Valid()
      modifies this`y, b`pages, b`drawn
      ensures Valid() && State() == WithRule(old(State()))
    {
      b.Draw(RuleOp(MARGIN, y, PAGE_W - MARGIN, y, 80));
      y := y - 14;
    }

    method Sections(sections: seq<Section>, inflate: Inflate)
      requires Valid()
      modifies this`y, b`pages, b`drawn, b`images
      ensures Valid() && State() == WithSections(old(State()), sections, inflate)
    {
      for i := 0 to |sections|
        invariant Valid()
        invariant WithSections(old(State()), sections, inflate) == WithSections(State(), sections[i..], inflate)
      {
        assert sections[i..][1..] == sections[i + 1..];
        RenderSection(sections[i], inflate);
      }
    }

    method Finish(deflate: Deflate) returns (file: string)
      requires Valid() && b.objects == []
      modifies b`objects
      ensures file == Finished(State(), deflate)
    {
      PagesArePrinted(b.pages, b.drawn);
      file := b.Build(deflate);
    }

    method LayOut(report: Report, inflate: Inflate)
      requires Valid() && State() == BLANK
      modifies this`y, b`pages, b`drawn, b`images
      ensures Valid() && State() == LaidOut(report, inflate)
    {
      Paragraph(TitlePara(report));
      Paragraph(BylinePara(report));
      Rule();
      Paragraphs(SummaryParas(report));
      Sections(report.sections, inflate);
      Paragraphs(WarningParas(report.warnings));
    }
  }

  method RenderReport(report: Report, inflate: Inflate, deflate: Deflate) returns (file: string)
    ensures file == Rendered(report, inflate, deflate)
  {
    var r := new Renderer();
    r.LayOut(report, inflate);
    file := r.Finish(deflate);
  }

  // ---------- the file of a report ----------

  lemma {:induction false} PagesArePrinted(pages: seq<seq<string>>, drawn: seq<seq<Op>>)
    requires |pages| == |drawn| && forall i :: 0 <= i < |pages| ==> pages[i] == PrintedAll(drawn[i])
    ensures pages == PrintedPages(drawn)
  {
    if pages != [] {
      PagesArePrinted(pages[1..], drawn[1..]);
    }
  }

  function BuiltSheet(s: Sheet, deflate: Deflate): Built
  {
    BuiltFrom([], s.images, PrintedPages(s.pages), deflate)
  }

  /** The file of the pages laid out on s. */
  function Finished(s: Sheet, deflate: Deflate): string
  {
    FileOf(PDF, BuiltSheet(s, deflate).objects, BuiltSheet(s, deflate).catalog)
  }

  function BuiltReport(report: Report, inflate: Inflate, deflate: Deflate): Built
  {
    BuiltSheet(LaidOut(report, inflate), deflate)
  }

  function Rendered(report: Report, inflate: Inflate, deflate: Deflate): string
  {
    Finished(LaidOut(report, inflate), deflate)
  }

  // ---------- the text of a report survives ----------

  function AllShown(contents: seq<string>): seq<string>
  {
    if contents == [] then [] else ShownTexts(contents[0]) + AllShown(contents[1..])
  }

  /** The texts of a PDF file: from its last byte to its pages to the strings they show. */
  function ReadTexts(file: string): Option<seq<string>>
  {
    var contents :- ReadFile(file);
    Some(AllShown(contents))
  }

  lemma {:induction false} ShownPages(pages: seq<seq<Op>>)
    requires AllPagesOneLine(pages)
    ensures AllShown(Contents(PrintedPages(pages))) == ReadAll(PageTexts(pages))
  {
    if pages != [] {
      ContentShowsTexts(pages[0]);
      ShownPages(pages[1..]);
      assert PrintedPages(pages)[1..] == PrintedPages(pages[1..]);
      ReadAllConcat(DrawnTexts(pages[0]), PageTexts(pages[1..]));
    }
  }

  lemma {:induction false} DrawnOneLine(ops: seq<Op>)
    requires forall t :: t in DrawnTexts(ops) ==> OneLine(t)
    ensures AllOneLine(ops)
  {
    if ops != [] {
      DrawnOneLine(ops[1..]);
      assert ops[0].TextOp? ==> ops[0].text in DrawnTexts(ops);
    }
  }

  lemma {:induction false} PagesOneLine(pages: seq<seq<Op>>)
    requires forall t :: t in PageTexts(pages) ==> OneLine(t)
    ensures AllPagesOneLine(pages)
  {
    if pages != [] {
      DrawnOneLine(pages[0]);
      PagesOneLine(pages[1..]);
    }
  }

  // ---------- wrapped lines hold no line breaks ----------

  ghost predicate Lacks(s: string, c: char)
  {
    c !in s
  }

  lemma {:induction false} WrapWordsLacks(current: string, words: seq<string>, col: Column, c: char)
    requires c != ' ' && c !in current && forall w :: w in words ==> Lacks(w, c)
    ensures forall l :: l in WrapWords(current, words, col) ==> Lacks(l, c)
    decreases |words|
  {
    if words != [] {
      var candidate := Strip(current + " " + words[0]);
      assert Lacks(words[0], c);
      StripLacks(current + " " + words[0], c);
      if current != "" && col.TooWide(candidate) {
        WrapWordsLacks(words[0], words[1..], col, c);
      } else {
        WrapWordsLacks(candidate, words[1..], col, c);
      }
    }
  }

  lemma {:induction false} SplitLacks(s: string, sep: string, c: char)
    requires sep != "" && c !in s
    ensures forall p :: p in Split(s, sep) ==> Lacks(p, c)
    decreases |s|
  {
    match Find(s, sep, 0)
    case None =>
    case Some(i) => SplitLacks(s[i + |sep|..], sep, c);
  }

  lemma {:induction false} WrapLinesLacks(raw: seq<string>, col: Column, c: char)
    requires c != ' ' && forall r :: r in raw ==> Lacks(r, c)
    ensures forall l :: l in WrapLines(raw, col) ==> Lacks(l, c)
  {
    if raw != [] {
      assert Lacks(raw[0], c);
      SplitLacks(raw[0], " ", c);
      WrapWordsLacks("", Split(raw[0], " "), col, c);
      WrapLinesLacks(raw[1..], col, c);
    }
  }

  /** A wrapped line holds no line feed. */
  lemma {:induction false} WrappedOneLine(text: string, col: Column)
    ensures forall l :: l in Wrapped(text, col) ==> OneLine(l)
  {
    var raw := Split(text, "\n");
    SplitPartsAreClean(text, "\n");
    forall r | r in raw ensures Lacks(r, '\n') {
      FindChar(r, '\n');
    }
    WrapLinesLacks(raw, col, '\n');
    forall l | l in Wrapped(text, col) ensures OneLine(l) {
      assert Lacks(l, '\n');
    }
  }

  lemma {:induction false} AllLinesOneLine(paras: seq<Para>)
    ensures forall l :: l in AllLines(paras) ==> OneLine(l)
  {
    if paras != [] {
      WrappedOneLine(paras[0].text, Column(paras[0].style.size, COLUMN_WIDTH));
      AllLinesOneLine(paras[1..]);
    }
  }

  // ---------- which reports hold the placeholder ----------

  /** The pages hold the placeholder exactly when one of the drawn texts does. */
  lemma {:induction false} FreePages(pages: seq<seq<Op>>)
    ensures AllFree(PrintedPages(pages)) <==> AllTextsFree(PageTexts(pages), PARENT)
  {
    if pages != [] {
      ParentIsOrdinary();
      FreePage(pages[0], PARENT);
      FreePages(pages[1..]);
      assert PrintedPages(pages)[1..] == PrintedPages(pages[1..]);
      AllTextsFreeConcat(DrawnTexts(pages[0]), PageTexts(pages[1..]), PARENT);
    }
  }

  // ---------- main results ----------

  /** The pages of a written report read back, content stream by content stream, exactly when no
      wrapped line holds the text of the parent placeholder and offsets have at most ten digits. */
  lemma {:induction false} ReportPagesReadBack(report: Report, inflate: Inflate, deflate: Deflate)
    ensures var contents := Contents(PrintedPages(LaidOut(report, inflate).pages));
            ReadFile(Rendered(report, inflate, deflate)) == Some(contents)
            <==> AllFit(Offsets(PDF, BuiltReport(report, inflate, deflate).objects, 1, |PDF.header|)) &&
                 AllTextsFree(AllLines(Paras(report, inflate)), PARENT)
  {
    var s := LaidOut(report, inflate);
    FileReadsBack([], s.images, PrintedPages(s.pages), deflate);
    FreePages(s.pages);
    LayoutIsLossless(report, inflate);
  }

  /** The whole way: reading the PDF file of a report from its last byte, through the table, the
      catalog and the pages to the strings they show, gives the wrapped paragraphs of the report in
      order, with end-of-line markers normalised. These are their WinAnsi bytes exactly when no
      wrapped line holds a carriage return; the text of a paragraph may, before it is stripped off. */
  lemma {:induction false} ReportReadsBack(report: Report, inflate: Inflate, deflate: Deflate)
    requires AllTextsFree(AllLines(Paras(report, inflate)), PARENT)
    requires AllFit(Offsets(PDF, BuiltReport(report, inflate, deflate).objects, 1, |PDF.header|))
    ensures var lines := AllLines(Paras(report, inflate));
            ReadTexts(Rendered(report, inflate, deflate)) == Some(ReadAll(lines))
            && (ReadTexts(Rendered(report, inflate, deflate)) == Some(WinAll(lines)) <==> NoReturns(lines))
  {
    var s := LaidOut(report, inflate);
    LayoutIsLossless(report, inflate);
    AllLinesOneLine(Paras(report, inflate));
    PagesOneLine(s.pages);
    ShownPages(s.pages);
    ReportPagesReadBack(report, inflate, deflate);
    ReadAllExactly(AllLines(Paras(report, inflate)));
  }
}
