/** Laying a report out on A4 pages. All coordinates are whole points: the code only ever adds and
    subtracts whole numbers, which its floating-point numbers represent exactly. */
module ReportLayout {
  import opened Wrappers
  import opened Text
  import opened Bytes
  import opened PngDecode
  import opened WordWrap
  import opened PdfDrawing
  import opened PdfShapes

  const PAGE_W := 595
  const PAGE_H := 842
  const MARGIN := 50
  const LINE_GAP := 4
  const TOP := PAGE_H - MARGIN
  const COLUMN_WIDTH := PAGE_W - 2 * MARGIN

  /** A section with the texts the report prints for it; `chart` is the rasterised chart, if any. */
  datatype Section = Section(title: string, metricName: string, total: Option<string>, rowCount: string,
                             chart: Option<seq<byte>>, narrative: string)

  datatype Report = Report(title: string, createdAt: string, summary: string, sections: seq<Section>,
                           warnings: seq<string>)

  datatype Style = Style(size: nat, bold: bool, gray: nat, gap: nat)

  /** A paragraph and how it is set. */
  datatype Para = Para(text: string, style: Style)

  // ---------- the state of the layout ----------

  /** What has been drawn so far, the vertical position, and the images collected. */
  datatype Sheet = Sheet(pages: seq<seq<Op>>, y: int, images: seq<ImageSpec>)

  function NewPage(s: Sheet): Sheet
  {
    Sheet(s.pages + [[]], TOP, s.images)
  }

  /** Start a new page unless `space` points are left above the bottom margin. */
  function Ensure(s: Sheet, space: int): Sheet
  {
    if s.y - space < MARGIN then NewPage(s) else s
  }

  function Drawn(s: Sheet, op: Op): Sheet
    requires s.pages != []
  {
    s.(pages := OneMoreOp(s.pages, op))
  }

  function Down(s: Sheet, points: int): Sheet
  {
    s.(y := s.y - points)
  }

  function LineOp(y: int, line: string, style: Style): Op
  {
    TextOp(MARGIN, y, style.size, line, style.bold, style.gray)
  }

  /** One line of a paragraph. */
  function WithLine(s: Sheet, line: string, style: Style): (r: Sheet)
    requires s.pages != []
    ensures r.pages != []
  {
    var placed := Down(Ensure(s, style.size + LINE_GAP), style.size + LINE_GAP);
    Drawn(placed, LineOp(placed.y, line, style))
  }

  function WithLines(s: Sheet, lines: seq<string>, style: Style): (r: Sheet)
    requires s.pages != []
    ensures r.pages != []
    decreases |lines|
  {
    if lines == [] then s else WithLines(WithLine(s, lines[0], style), lines[1..], style)
  }

  function ColumnOf(p: Para): Column
  {
    Column(p.style.size, COLUMN_WIDTH)
  }

  function LinesOf(p: Para): seq<string>
  {
    Wrapped(p.text, ColumnOf(p))
  }

  function WithPara(s: Sheet, p: Para): (r: Sheet)
    requires s.pages != []
    ensures r.pages != []
  {
    Down(WithLines(s, LinesOf(p), p.style), p.style.gap)
  }

  // ---------- the parts of a report ----------

  function TitlePara(report: Report): Para
  {
    Para(report.title, Style(20, true, 0, 2))
  }

  function BylinePara(report: Report): Para
  {
    Para("Generated " + report.createdAt + " \U{B7} " + Dec(|report.sections|) + " sections", Style(9, false, 45, 10))
  }

  function SummaryParas(report: Report): seq<Para>
  {
    if report.summary == "" then [] else [Para(report.summary, Style(10, false, 25, 10))]
  }

  function SectionTitle(section: Section): Para
  {
    Para(section.title, Style(13, true, 10, 2))
  }

  function SectionMeta(section: Section): Para
  {
    var total := if section.total.Some? then " \U{B7} total " + section.total.value else "";
    Para(section.metricName + total + " \U{B7} " + section.rowCount + " rows", Style(9, false, 45, 6))
  }

  const CHART_NOTE := Para("[chart image unavailable in this export]", Style(9, false, 60, 6))

  function NarrativePara(section: Section): Para
  {
    Para(section.narrative, Style(10, false, 20, 12))
  }

  function WarningPara(warning: string): Para
  {
    Para("\U{26A0} " + warning, Style(8, false, 50, 2))
  }

  /** The image a section shows, if its chart was rasterised and can be decoded. */
  function ChartOf(section: Section, inflate: Inflate): Option<ImageSpec>
  {
    match section.chart
    case None => None
    case Some(png) => PdfImageOf(png, inflate)
  }

  function WithImage(s: Sheet, spec: ImageSpec): (r: Sheet)
    requires s.pages != []
    ensures r.pages != []
  {
    var placed := Down(s, 230);
    Drawn(placed, ImageOp(|s.images|, MARGIN, placed.y, COLUMN_WIDTH, 225)).(images := s.images + [spec])
  }

  /** The chart, or a note in its place. */
  function WithChart(s: Sheet, section: Section, inflate: Inflate): (r: Sheet)
    requires s.pages != []
    ensures r.pages != []
  {
    var ready := if section.chart.Some? then Ensure(s, 240) else s;
    match ChartOf(section, inflate)
    case Some(spec) => WithImage(ready, spec)
    case None => WithPara(ready, CHART_NOTE)
  }

  function WithSection(s: Sheet, section: Section, inflate: Inflate): (r: Sheet)
    requires s.pages != []
    ensures r.pages != []
  {
    var headed := WithPara(WithPara(Ensure(s, 90), SectionTitle(section)), SectionMeta(section));
    var charted := WithChart(headed, section, inflate);
    if section.narrative != "" then WithPara(charted, NarrativePara(section)) else Down(charted, 8)
  }

  function WithSections(s: Sheet, sections: seq<Section>, inflate: Inflate): (r: Sheet)
    requires s.pages != []
    ensures r.pages != []
    decreases |sections|
  {
    if sections == [] then s else WithSections(WithSection(s, sections[0], inflate), sections[1..], inflate)
  }

  function WithParas(s: Sheet, paras: seq<Para>): (r: Sheet)
    requires s.pages != []
    ensures r.pages != []
    decreases |paras|
  {
    if paras == [] then s else WithParas(WithPara(s, paras[0]), paras[1..])
  }

  function WarningParas(warnings: seq<string>): seq<Para>
  {
    if warnings == [] then [] else [WarningPara(warnings[0])] + WarningParas(warnings[1..])
  }

  function WithRule(s: Sheet): (r: Sheet)
    requires s.pages != []
    ensures r.pages != []
  {
    Down(Drawn(s, RuleOp(MARGIN, s.y, PAGE_W - MARGIN, s.y, 80)), 14)
  }

  const BLANK := Sheet([[]], TOP, [])

  function LaidOut(report: Report, inflate: Inflate): (r: Sheet)
    ensures r.pages != []
  {
    var head := WithRule(WithPara(WithPara(BLANK, TitlePara(report)), BylinePara(report)));
    var body := WithSections(WithParas(head, SummaryParas(report)), report.sections, inflate);
    WithParas(body, WarningParas(report.warnings))
  }

  // ---------- the layout as a list of steps ----------

  /** What is done for a report, one step after the other, whatever is on the page already. */
  datatype Step =
    | Room(points: int)
    | Put(para: Para)
    | Show(spec: ImageSpec)
    | Skip(points: int)
    | Rule

  function Taken(s: Sheet, step: Step): (r: Sheet)
    requires s.pages != []
    ensures r.pages != []
  {
    match step
    case Room(points) => Ensure(s, points)
    case Put(p) => WithPara(s, p)
    case Show(spec) => WithImage(Ensure(s, 240), spec)
    case Skip(points) => Down(s, points)
    case Rule => WithRule(s)
  }

  function Flow(s: Sheet, steps: seq<Step>): (r: Sheet)
    requires s.pages != []
    ensures r.pages != []
    decreases |steps|
  {
    if steps == [] then s else Flow(Taken(s, steps[0]), steps[1..])
  }

  const NOTE := Put(Para("[chart image unavailable in this export]", Style(9, false, 60, 6)))

  /** A picture if there is one that can be decoded, and a note otherwise. */
  function PictureSteps(chart: Option<seq<byte>>, inflate: Inflate): seq<Step>
  {
    match chart
    case None => [NOTE]
    case Some(png) =>
      match PdfImageOf(png, inflate)
      case Some(spec) => [Show(spec)]
      case None => [Room(240), NOTE]
  }

  function SectionSteps(section: Section, inflate: Inflate): seq<Step>
  {
    [Room(90),
     Put(Para(section.title, Style(13, true, 10, 2))),
     Put(Para(section.metricName + (if section.total.Some? then " \U{B7} total " + section.total.value else "")
              + " \U{B7} " + section.rowCount + " rows", Style(9, false, 45, 6)))]
    + PictureSteps(section.chart, inflate)
    + [if section.narrative == "" then Skip(8) else Put(Para(section.narrative, Style(10, false, 20, 12)))]
  }

  function AllSectionSteps(sections: seq<Section>, inflate: Inflate): seq<Step>
  {
    if sections == [] then [] else SectionSteps(sections[0], inflate) + AllSectionSteps(sections[1..], inflate)
  }

  function WarningSteps(warnings: seq<string>): seq<Step>
  {
    if warnings == [] then []
    else [Put(Para("\U{26A0} " + warnings[0], Style(8, false, 50, 2)))] + WarningSteps(warnings[1..])
  }

  function SummarySteps(report: Report): seq<Step>
  {
    if report.summary == "" then [] else [Put(Para(report.summary, Style(10, false, 25, 10)))]
  }

  /** The whole report. */
  function Steps(report: Report, inflate: Inflate): seq<Step>
  {
    [Put(Para(report.title, Style(20, true, 0, 2))),
     Put(Para("Generated " + report.createdAt + " \U{B7} " + Dec(|report.sections|) + " sections",
              Style(9, false, 45, 10))),
     Rule]
    + SummarySteps(report)
    + AllSectionSteps(report.sections, inflate)
    + WarningSteps(report.warnings)
  }

  lemma {:induction false} FlowConcat(s: Sheet, a: seq<Step>, b: seq<Step>)
    requires s.pages != []
    ensures Flow(s, a + b) == Flow(Flow(s, a), b)
    decreases |a|
  {
    if a == [] {
      assert a + b == b;
    } else {
      assert (a + b)[1..] == a[1..] + b;
      FlowConcat(Taken(s, a[0]), a[1..], b);
    }
  }

  lemma {:induction false} FlowOne(s: Sheet, step: Step)
    requires s.pages != []
    ensures Flow(s, [step]) == Taken(s, step)
  {
    var one := [step];
    assert one[1..] == [] && Flow(Taken(s, step), []) == Taken(s, step);
  }

  lemma {:induction false} FlowTwo(s: Sheet, a: Step, b: Step)
    requires s.pages != []
    ensures Flow(s, [a, b]) == Taken(Taken(s, a), b)
  {
    assert [a, b] == [a] + [b];
    FlowConcat(s, [a], [b]);
    FlowOne(s, a);
    FlowOne(Taken(s, a), b);
  }

  lemma {:induction false} FlowThree(s: Sheet, a: Step, b: Step, c: Step)
    requires s.pages != []
    ensures Flow(s, [a, b, c]) == Taken(Taken(Taken(s, a), b), c)
  {
    assert [a, b, c] == [a] + [b, c];
    FlowConcat(s, [a], [b, c]);
    FlowOne(s, a);
    FlowTwo(Taken(s, a), b, c);
  }

  lemma {:induction false} ChartIsFlow(s: Sheet, section: Section, inflate: Inflate)
    requires s.pages != []
    ensures WithChart(s, section, inflate) == Flow(s, PictureSteps(section.chart, inflate))
  {
    match section.chart
    case None => FlowOne(s, NOTE);
    case Some(png) =>
      match PdfImageOf(png, inflate)
      case Some(spec) => FlowOne(s, Show(spec));
      case None => FlowTwo(s, Room(240), NOTE);
  }

  lemma {:induction false} HeadingIsFlow(s: Sheet, title: Para, meta: Para)
    requires s.pages != []
    ensures WithPara(WithPara(Ensure(s, 90), title), meta) == Flow(s, [Room(90), Put(title), Put(meta)])
  {
    FlowThree(s, Room(90), Put(title), Put(meta));
  }

  lemma {:induction false} SectionIsFlow(s: Sheet, section: Section, inflate: Inflate)
    requires s.pages != []
    ensures WithSection(s, section, inflate) == Flow(s, SectionSteps(section, inflate))
  {
    var title, meta := SectionTitle(section), SectionMeta(section);
    var story := if section.narrative == "" then Skip(8) else Put(NarrativePara(section));
    HeadingIsFlow(s, title, meta);
    var headed := WithPara(WithPara(Ensure(s, 90), title), meta);
    ChartIsFlow(headed, section, inflate);
    FlowOne(WithChart(headed, section, inflate), story);
    FlowInThree(s, [Room(90), Put(title), Put(meta)], PictureSteps(section.chart, inflate), [story]);
    StepsOfSection(section, inflate, title, meta, story);
  }

  lemma {:induction false} StepsOfSection(section: Section, inflate: Inflate, title: Para, meta: Para, story: Step)
    requires title == SectionTitle(section) && meta == SectionMeta(section)
    requires story == if section.narrative == "" then Skip(8) else Put(NarrativePara(section))
    ensures SectionSteps(section, inflate)
         == [Room(90), Put(title), Put(meta)] + PictureSteps(section.chart, inflate) + [story]
  {
  }

  lemma {:induction false} FlowInThree(s: Sheet, a: seq<Step>, b: seq<Step>, c: seq<Step>)
    requires s.pages != []
    ensures Flow(s, a + b + c) == Flow(Flow(Flow(s, a), b), c)
  {
    FlowConcat(s, a + b, c);
    FlowConcat(s, a, b);
  }

  lemma {:induction false} SectionsAreFlow(s: Sheet, sections: seq<Section>, inflate: Inflate)
    requires s.pages != []
    ensures WithSections(s, sections, inflate) == Flow(s, AllSectionSteps(sections, inflate))
    decreases |sections|
  {
    if sections != [] {
      SectionIsFlow(s, sections[0], inflate);
      SectionsAreFlow(WithSection(s, sections[0], inflate), sections[1..], inflate);
      FlowConcat(s, SectionSteps(sections[0], inflate), AllSectionSteps(sections[1..], inflate));
    }
  }

  lemma {:induction false} WarningsAreFlow(s: Sheet, warnings: seq<string>)
    requires s.pages != []
    ensures WithParas(s, WarningParas(warnings)) == Flow(s, WarningSteps(warnings))
    decreases |warnings|
  {
    if warnings != [] {
      var p := WarningPara(warnings[0]);
      assert WarningParas(warnings)[1..] == WarningParas(warnings[1..]);
      assert WarningSteps(warnings)[1..] == WarningSteps(warnings[1..]);
      WarningsAreFlow(WithPara(s, p), warnings[1..]);
    }
  }

  lemma {:induction false} SummaryIsFlow(s: Sheet, report: Report)
    requires s.pages != []
    ensures WithParas(s, SummaryParas(report))
         == Flow(s, SummarySteps(report))
  {
    if report.summary != "" {
      var p := Para(report.summary, Style(10, false, 25, 10));
      var one := [p];
      assert one[1..] == [];
      assert WithParas(s, one) == WithParas(WithPara(s, p), []);
      FlowOne(s, Put(p));
    }
  }

  lemma {:induction false} BodyIsFlow(s: Sheet, report: Report, inflate: Inflate)
    requires s.pages != []
    ensures WithParas(WithSections(WithParas(s, SummaryParas(report)), report.sections, inflate),
                      WarningParas(report.warnings))
         == Flow(s, SummarySteps(report) + AllSectionSteps(report.sections, inflate) + WarningSteps(report.warnings))
  {
    SummaryIsFlow(s, report);
    var body := WithParas(s, SummaryParas(report));
    SectionsAreFlow(body, report.sections, inflate);
    WarningsAreFlow(WithSections(body, report.sections, inflate), report.warnings);
    FlowInThree(s, SummarySteps(report), AllSectionSteps(report.sections, inflate), WarningSteps(report.warnings));
  }

  lemma {:induction false} HeadIsFlow(title: Para, byline: Para)
    ensures WithRule(WithPara(WithPara(BLANK, title), byline)) == Flow(BLANK, [Put(title), Put(byline), Rule])
  {
    FlowThree(BLANK, Put(title), Put(byline), Rule);
  }

  /** Laying out a report is taking the steps that its fields ask for, in this order. */
  lemma {:induction false} LayoutIsFlow(report: Report, inflate: Inflate)
    ensures LaidOut(report, inflate) == Flow(BLANK, Steps(report, inflate))
  {
    var title, byline := TitlePara(report), BylinePara(report);
    HeadIsFlow(title, byline);
    BodyIsFlow(WithRule(WithPara(WithPara(BLANK, title), byline)), report, inflate);
    StepsInFour(report, inflate, title, byline);
    FlowConcat(BLANK, [Put(title), Put(byline), Rule],
               SummarySteps(report) + AllSectionSteps(report.sections, inflate) + WarningSteps(report.warnings));
  }

  lemma {:induction false} StepsInFour(report: Report, inflate: Inflate, title: Para, byline: Para)
    requires title == TitlePara(report) && byline == BylinePara(report)
    ensures Steps(report, inflate)
         == [Put(title), Put(byline), Rule]
            + (SummarySteps(report) + AllSectionSteps(report.sections, inflate) + WarningSteps(report.warnings))
  {
  }

  // ---------- where a step draws, in points ----------

  /** A line stands its size and four points lower, on a new page if that is less than fifty points high. */
  lemma {:induction false} LineIsPlaced(s: Sheet, line: string, style: Style)
    requires s.pages != []
    ensures var r, y := WithLine(s, line, style), s.y - style.size - 4;
            r.images == s.images
            && if y >= 50
               then r.y == y
                    && r.pages == OneMoreOp(s.pages, TextOp(50, y, style.size, line, style.bold, style.gray))
               else r.y == 788 - style.size
                    && r.pages == s.pages + [[TextOp(50, 788 - style.size, style.size, line, style.bold, style.gray)]]
  {
    OnNewPage(s.pages, TextOp(50, 788 - style.size, style.size, line, style.bold, style.gray));
  }

  lemma {:induction false} LinesEndWithLast(s: Sheet, lines: seq<string>, style: Style)
    requires s.pages != [] && lines != []
    ensures var r := WithLines(s, lines, style);
            var page := r.pages[|r.pages| - 1];
            page != [] && page[|page| - 1] == TextOp(50, r.y, style.size, lines[|lines| - 1], style.bold, style.gray)
    decreases |lines|
  {
    var r := WithLine(s, lines[0], style);
    LineIsPlaced(s, lines[0], style);
    if |lines| > 1 {
      LinesEndWithLast(r, lines[1..], style);
    } else {
      assert WithLines(r, lines[1..], style) == r;
    }
  }

  /** A paragraph leaves its gap below its last line. */
  lemma {:induction false} ParaIsPlaced(s: Sheet, p: Para)
    requires s.pages != []
    ensures var r, lines := WithPara(s, p), LinesOf(p);
            var page := r.pages[|r.pages| - 1];
            lines != [] && page != []
            && page[|page| - 1] == TextOp(50, r.y + p.style.gap, p.style.size, lines[|lines| - 1], p.style.bold,
                                          p.style.gray)
  {
    WrappedHasLines(p.text, ColumnOf(p));
    LinesEndWithLast(s, LinesOf(p), p.style);
  }

  /** Room is made by a new page if there is not enough above fifty points; a skip only goes down. */
  lemma {:induction false} RoomIsMade(s: Sheet, points: nat)
    requires s.pages != []
    ensures Taken(s, Room(points)) == if s.y - points >= 50 then s else Sheet(s.pages + [[]], 792, s.images)
    ensures Taken(s, Skip(points)) == Sheet(s.pages, s.y - points, s.images)
  {
  }

  lemma {:induction false} OnNewPage(pages: seq<seq<Op>>, op: Op)
    ensures OneMoreOp(pages + [[]], op) == pages + [[op]]
  {
    var more: seq<seq<Op>> := pages + [[]];
    assert more[..|more| - 1] == pages && more[|more| - 1] + [op] == [op];
  }

  /** A picture is 495 points wide and 225 high, 230 points lower, on a new page if less than 290 points are
      left. */
  lemma {:induction false} PictureIsPlaced(s: Sheet, spec: ImageSpec)
    requires s.pages != []
    ensures var r, k := Taken(s, Show(spec)), |s.images|;
            r.images == s.images + [spec]
            && if s.y >= 290
               then r.y == s.y - 230 && r.pages == OneMoreOp(s.pages, ImageOp(k, 50, s.y - 230, 495, 225))
               else r.y == 562 && r.pages == s.pages + [[ImageOp(k, 50, 562, 495, 225)]]
  {
    OnNewPage(s.pages, ImageOp(|s.images|, 50, 562, 495, 225));
  }

  /** The rule goes from margin to margin, and what follows is fourteen points lower. */
  lemma {:induction false} RuleIsPlaced(s: Sheet)
    requires s.pages != []
    ensures Taken(s, Rule) == Sheet(OneMoreOp(s.pages, RuleOp(50, s.y, 545, s.y, 80)), s.y - 14, s.images)
    ensures BLANK == Sheet([[]], 792, [])
  {
  }

  // ---------- safety: margins and disjoint boxes ----------

  predicate IsBox(op: Op)
  {
    !op.RuleOp?
  }

  function Bottom(op: Op): int
    requires IsBox(op)
  {
    op.y
  }

  function Ceiling(op: Op): int
    requires IsBox(op)
  {
    if op.TextOp? then op.y + op.size else op.y + op.h
  }

  /** A text of several words ends before the right margin, counting half its size for every character, less
      0.22 of it for a narrow one. */
  predicate EndsInMargin(op: Op)
    requires op.TextOp?
  {
    ' ' in op.text ==>
      100 * op.x + op.size * (50 * |op.text| - 22 * Thin(op.text)) <= 100 * (PAGE_W - MARGIN)
  }

  /** A text starts on the left margin and stays left of the right one, an image spans the column, and both
      stay between the upper and the lower margin; a rule goes from the left margin to the right. */
  ghost predicate InMargins(op: Op)
  {
    match op
    case TextOp(x, _, _, _, _, _) =>
      MARGIN <= Bottom(op) <= Ceiling(op) <= TOP && x == MARGIN && EndsInMargin(op)
    case ImageOp(_, x, _, w, _) =>
      MARGIN <= Bottom(op) <= Ceiling(op) <= TOP && x == MARGIN && x + w == PAGE_W - MARGIN
    case RuleOp(x1, y1, x2, y2, _) =>
      x1 == MARGIN && x2 == PAGE_W - MARGIN && y1 == y2 <= TOP
  }

  /** The boxes of a page lie below one another in drawing order, without overlap. */
  ghost predicate Descending(ops: seq<Op>)
  {
    forall i, j :: 0 <= i < j < |ops| && IsBox(ops[i]) && IsBox(ops[j]) ==> Ceiling(ops[j]) <= Bottom(ops[i])
  }

  ghost predicate PageIsSafe(ops: seq<Op>)
  {
    Descending(ops) && forall op :: op in ops ==> InMargins(op)
  }

  /** Every page is safe, and everything on the last page is above the current position. */
  ghost predicate IsSafe(s: Sheet)
  {
    s.pages != [] && s.y <= TOP &&
    (forall i :: 0 <= i < |s.pages| ==> PageIsSafe(s.pages[i])) &&
    forall op :: op in s.pages[|s.pages| - 1] && IsBox(op) ==> s.y <= Bottom(op)
  }

  lemma {:induction false} EnsureIsSafe(s: Sheet, space: int)
    requires IsSafe(s)
    ensures IsSafe(Ensure(s, space))
    ensures Ensure(s, space).y - space >= MARGIN || Ensure(s, space).y == TOP
  {
  }

  /** Drawing a box below the current position keeps the page safe. */
  lemma {:induction false} DrawnIsSafe(s: Sheet, op: Op, down: nat)
    requires IsSafe(s) && InMargins(op)
    requires IsBox(op) ==> Ceiling(op) <= s.y && Bottom(op) == s.y - down
    ensures IsSafe(Drawn(Down(s, down), op))
  {
    var last := |s.pages| - 1;
    var page := s.pages[last];
    assert PageIsSafe(page);
    var page' := page + [op];
    forall i, j | 0 <= i < j < |page'| && IsBox(page'[i]) && IsBox(page'[j])
      ensures Ceiling(page'[j]) <= Bottom(page'[i])
    {
      assert page'[i] == page[i] && page[i] in page;
      if j == |page| {
        assert page'[j] == op;
      }
    }
    assert PageIsSafe(page');
  }

  /** A line of several words is not wider than the column. */
  predicate Narrow(line: string, style: Style)
  {
    ' ' in line ==> !Overflows(line, Column(style.size, COLUMN_WIDTH))
  }

  lemma {:induction false} NarrowEndsInMargin(y: int, line: string, style: Style)
    requires Narrow(line, style)
    ensures EndsInMargin(LineOp(y, line, style))
  {
  }

  lemma {:induction false} WithLineIsSafe(s: Sheet, line: string, style: Style)
    requires IsSafe(s) && style.size <= 100 && Narrow(line, style)
    ensures IsSafe(WithLine(s, line, style))
  {
    EnsureIsSafe(s, style.size + LINE_GAP);
    var ready := Ensure(s, style.size + LINE_GAP);
    var y := ready.y - (style.size + LINE_GAP);
    NarrowEndsInMargin(y, line, style);
    DrawnIsSafe(ready, LineOp(y, line, style), style.size + LINE_GAP);
  }

  lemma {:induction false} WithLinesIsSafe(s: Sheet, lines: seq<string>, style: Style)
    requires IsSafe(s) && style.size <= 100 && forall l :: l in lines ==> Narrow(l, style)
    ensures IsSafe(WithLines(s, lines, style))
    decreases |lines|
  {
    if lines != [] {
      assert lines[0] in lines;
      WithLineIsSafe(s, lines[0], style);
      WithLinesIsSafe(WithLine(s, lines[0], style), lines[1..], style);
    }
  }

  lemma {:induction false} WithParaIsSafe(s: Sheet, p: Para)
    requires IsSafe(s) && p.style.size <= 100
    ensures IsSafe(WithPara(s, p))
  {
    WrappedFits(p.text, ColumnOf(p));
    WithLinesIsSafe(s, LinesOf(p), p.style);
  }

  ghost predicate IsSmall(step: Step)
  {
    step.Put? ==> step.para.style.size <= 100
  }

  lemma {:induction false} StepIsSafe(s: Sheet, step: Step)
    requires IsSafe(s) && IsSmall(step) && (step.Skip? ==> step.points >= 0)
    ensures IsSafe(Taken(s, step))
  {
    match step
    case Room(points) => EnsureIsSafe(s, points);
    case Put(p) => WithParaIsSafe(s, p);
    case Show(spec) =>
      EnsureIsSafe(s, 240);
      var ready := Ensure(s, 240);
      DrawnIsSafe(ready, ImageOp(|ready.images|, MARGIN, ready.y - 230, COLUMN_WIDTH, 225), 230);
    case Skip(_) =>
    case Rule =>
      DrawnIsSafe(s, RuleOp(MARGIN, s.y, PAGE_W - MARGIN, s.y, 80), 0);
      assert Down(s, 0) == s;
  }

  ghost predicate AllSmall(steps: seq<Step>)
  {
    forall step :: step in steps ==> IsSmall(step) && (step.Skip? ==> step.points >= 0)
  }

  lemma {:induction false} FlowIsSafe(s: Sheet, steps: seq<Step>)
    requires IsSafe(s) && AllSmall(steps)
    ensures IsSafe(Flow(s, steps))
    decreases |steps|
  {
    if steps != [] {
      assert steps[0] in steps;
      StepIsSafe(s, steps[0]);
      FlowIsSafe(Taken(s, steps[0]), steps[1..]);
    }
  }

  lemma {:induction false} SectionStepsAreSmall(sections: seq<Section>, inflate: Inflate)
    ensures AllSmall(AllSectionSteps(sections, inflate))
  {
    if sections != [] {
      SectionStepsAreSmall(sections[1..], inflate);
      assert AllSmall(SectionSteps(sections[0], inflate));
    }
  }

  lemma {:induction false} WarningStepsAreSmall(warnings: seq<string>)
    ensures AllSmall(WarningSteps(warnings))
  {
    if warnings != [] {
      WarningStepsAreSmall(warnings[1..]);
    }
  }

  lemma {:induction false} StepsAreSmall(report: Report, inflate: Inflate)
    ensures AllSmall(Steps(report, inflate))
  {
    SectionStepsAreSmall(report.sections, inflate);
    WarningStepsAreSmall(report.warnings);
    var title, byline := TitlePara(report), BylinePara(report);
    StepsInFour(report, inflate, title, byline);
    assert AllSmall([Put(title), Put(byline), Rule]);
  }

  /** Whatever the report, every text and image lies within the margins, except a single word that is wider
      than the column, and the boxes of a page lie below one another. */
  lemma {:induction false} LayoutIsSafe(report: Report, inflate: Inflate)
    ensures IsSafe(LaidOut(report, inflate))
  {
    LayoutIsFlow(report, inflate);
    StepsAreSmall(report, inflate);
    FlowIsSafe(BLANK, Steps(report, inflate));
  }

  // ---------- nothing is lost: what is drawn is what the steps ask for ----------

  /** Something drawn, wherever it is. */
  datatype Piece =
    | TextPiece(text: string, size: nat, bold: bool, gray: nat)
    | PicturePiece(spec: ImageSpec)
    | RulePiece

  function PieceOf(op: Op, images: seq<ImageSpec>): Piece
    requires op.ImageOp? ==> op.index < |images|
  {
    match op
    case TextOp(_, _, size, text, bold, gray) => TextPiece(text, size, bold, gray)
    case ImageOp(index, _, _, _, _) => PicturePiece(images[index])
    case RuleOp(_, _, _, _, _) => RulePiece
  }

  function PiecesOf(ops: seq<Op>, images: seq<ImageSpec>): (pieces: seq<Piece>)
    requires Indexed(ops, |images|)
    ensures |pieces| == |ops|
  {
    if ops == [] then [] else
    assert ops[0] in ops;
    [PieceOf(ops[0], images)] + PiecesOf(ops[1..], images)
  }

  /** What is drawn on all pages, in order. */
  function PagePieces(pages: seq<seq<Op>>, images: seq<ImageSpec>): seq<Piece>
    requires AllIndexed(pages, |images|)
  {
    if pages == [] then [] else
    assert pages[0] in pages;
    PiecesOf(pages[0], images) + PagePieces(pages[1..], images)
  }

  function LinePieces(lines: seq<string>, style: Style): seq<Piece>
  {
    if lines == [] then []
    else [TextPiece(lines[0], style.size, style.bold, style.gray)] + LinePieces(lines[1..], style)
  }

  /** What a step adds: the wrapped lines of a paragraph, a picture, or the rule. */
  function StepPieces(step: Step): seq<Piece>
  {
    match step
    case Put(p) => LinePieces(LinesOf(p), p.style)
    case Show(spec) => [PicturePiece(spec)]
    case Rule => [RulePiece]
    case _ => []
  }

  function AllPieces(steps: seq<Step>): seq<Piece>
  {
    if steps == [] then [] else StepPieces(steps[0]) + AllPieces(steps[1..])
  }

  lemma {:induction false} PiecesOfMore(ops: seq<Op>, op: Op, images: seq<ImageSpec>)
    requires Indexed(ops + [op], |images|)
    ensures Indexed(ops, |images|) && (op.ImageOp? ==> op.index < |images|)
    ensures PiecesOf(ops + [op], images) == PiecesOf(ops, images) + [PieceOf(op, images)]
  {
    assert op in ops + [op];
    assert forall o :: o in ops ==> o in ops + [op];
    if ops == [] {
      assert ops + [op] == [op];
      assert [op][1..] == [];
    } else {
      assert (ops + [op])[1..] == ops[1..] + [op];
      PiecesOfMore(ops[1..], op, images);
    }
  }

  lemma {:induction false} PagePiecesConcat(a: seq<seq<Op>>, b: seq<seq<Op>>, images: seq<ImageSpec>)
    requires AllIndexed(a + b, |images|)
    ensures AllIndexed(a, |images|) && AllIndexed(b, |images|)
    ensures PagePieces(a + b, images) == PagePieces(a, images) + PagePieces(b, images)
  {
    assert forall page :: page in a ==> page in a + b;
    assert forall page :: page in b ==> page in a + b;
    if a == [] {
      assert a + b == b;
    } else {
      assert (a + b)[1..] == a[1..] + b;
      PagePiecesConcat(a[1..], b, images);
    }
  }

  lemma {:induction false} OnePagePieces(page: seq<Op>, images: seq<ImageSpec>)
    requires Indexed(page, |images|)
    ensures AllIndexed([page], |images|) && PagePieces([page], images) == PiecesOf(page, images)
  {
    var one := [page];
    assert one[1..] == [] && PagePieces([], images) == [];
  }

  /** An operation on the last page adds its piece. */
  lemma {:induction false} DrawnAdds(pages: seq<seq<Op>>, op: Op, images: seq<ImageSpec>)
    requires pages != [] && AllIndexed(pages, |images|) && (op.ImageOp? ==> op.index < |images|)
    ensures AllIndexed(OneMoreOp(pages, op), |images|)
    ensures PagePieces(OneMoreOp(pages, op), images) == PagePieces(pages, images) + [PieceOf(op, images)]
  {
    var front, page := pages[..|pages| - 1], pages[|pages| - 1];
    assert pages == front + [page] && page in pages;
    assert Indexed(page + [op], |images|);
    forall p | p in OneMoreOp(pages, op) ensures Indexed(p, |images|) {
      assert p in front ==> p in pages;
    }
    PagePiecesConcat(front, [page], images);
    PagePiecesConcat(front, [page + [op]], images);
    OnePagePieces(page, images);
    OnePagePieces(page + [op], images);
    PiecesOfMore(page, op, images);
  }

  /** A further picture changes none of those drawn before. */
  lemma {:induction false} PiecesKeep(ops: seq<Op>, images: seq<ImageSpec>, spec: ImageSpec)
    requires Indexed(ops, |images|)
    ensures Indexed(ops, |images + [spec]|) && PiecesOf(ops, images + [spec]) == PiecesOf(ops, images)
  {
    if ops != [] {
      assert ops[0] in ops;
      PiecesKeep(ops[1..], images, spec);
    }
  }

  lemma {:induction false} PagePiecesKeep(pages: seq<seq<Op>>, images: seq<ImageSpec>, spec: ImageSpec)
    requires AllIndexed(pages, |images|)
    ensures AllIndexed(pages, |images + [spec]|) && PagePieces(pages, images + [spec]) == PagePieces(pages, images)
  {
    if pages != [] {
      assert pages[0] in pages;
      PiecesKeep(pages[0], images, spec);
      PagePiecesKeep(pages[1..], images, spec);
    }
  }

  /** From s to t, exactly these pieces were drawn. */
  ghost predicate Adds(s: Sheet, t: Sheet, pieces: seq<Piece>)
  {
    s.pages != [] && AllIndexed(s.pages, |s.images|) && t.pages != [] && AllIndexed(t.pages, |t.images|)
    && PagePieces(t.pages, t.images) == PagePieces(s.pages, s.images) + pieces
  }

  lemma {:induction false} AddsTransitive(s: Sheet, t: Sheet, u: Sheet, a: seq<Piece>, b: seq<Piece>)
    requires Adds(s, t, a) && Adds(t, u, b)
    ensures Adds(s, u, a + b)
  {
  }

  lemma {:induction false} EnsureAdds(s: Sheet, space: int)
    requires s.pages != [] && AllIndexed(s.pages, |s.images|)
    ensures Adds(s, Ensure(s, space), [])
  {
    if s.y - space < MARGIN {
      PagePiecesConcat(s.pages, [[]], s.images);
      OnePagePieces([], s.images);
    }
  }

  lemma {:induction false} WithLineAdds(s: Sheet, line: string, style: Style)
    requires s.pages != [] && AllIndexed(s.pages, |s.images|)
    ensures Adds(s, WithLine(s, line, style), [TextPiece(line, style.size, style.bold, style.gray)])
  {
    var ready := Down(Ensure(s, style.size + LINE_GAP), style.size + LINE_GAP);
    EnsureAdds(s, style.size + LINE_GAP);
    DrawnAdds(ready.pages, LineOp(ready.y, line, style), s.images);
  }

  lemma {:induction false} WithLinesAdd(s: Sheet, lines: seq<string>, style: Style)
    requires s.pages != [] && AllIndexed(s.pages, |s.images|)
    ensures Adds(s, WithLines(s, lines, style), LinePieces(lines, style))
    decreases |lines|
  {
    if lines != [] {
      var t := WithLine(s, lines[0], style);
      WithLineAdds(s, lines[0], style);
      WithLinesAdd(t, lines[1..], style);
      AddsTransitive(s, t, WithLines(s, lines, style), [TextPiece(lines[0], style.size, style.bold, style.gray)],
                     LinePieces(lines[1..], style));
    }
  }

  lemma {:induction false} WithImageAdds(s: Sheet, spec: ImageSpec)
    requires s.pages != [] && AllIndexed(s.pages, |s.images|)
    ensures Adds(s, WithImage(s, spec), [PicturePiece(spec)])
  {
    PagePiecesKeep(s.pages, s.images, spec);
    DrawnAdds(s.pages, ImageOp(|s.images|, MARGIN, s.y - 230, COLUMN_WIDTH, 225), s.images + [spec]);
  }

  lemma {:induction false} StepAdds(s: Sheet, step: Step)
    requires s.pages != [] && AllIndexed(s.pages, |s.images|)
    ensures Adds(s, Taken(s, step), StepPieces(step))
  {
    match step
    case Room(points) => EnsureAdds(s, points);
    case Put(p) => WithLinesAdd(s, LinesOf(p), p.style);
    case Show(spec) =>
      EnsureAdds(s, 240);
      WithImageAdds(Ensure(s, 240), spec);
      AddsTransitive(s, Ensure(s, 240), Taken(s, step), [], [PicturePiece(spec)]);
      assert [] + [PicturePiece(spec)] == [PicturePiece(spec)];
    case Skip(_) =>
    case Rule => DrawnAdds(s.pages, RuleOp(MARGIN, s.y, PAGE_W - MARGIN, s.y, 80), s.images);
  }

  lemma {:induction false} FlowAdds(s: Sheet, steps: seq<Step>)
    requires s.pages != [] && AllIndexed(s.pages, |s.images|)
    ensures Adds(s, Flow(s, steps), AllPieces(steps))
    decreases |steps|
  {
    if steps != [] {
      StepAdds(s, steps[0]);
      FlowAdds(Taken(s, steps[0]), steps[1..]);
      AddsTransitive(s, Taken(s, steps[0]), Flow(s, steps), StepPieces(steps[0]), AllPieces(steps[1..]));
    }
  }

  /** Whatever the report, what is drawn, read page by page, is what its steps ask for: wrapped paragraphs and
      pictures, in report order. */
  lemma {:induction false} PiecesAreLossless(report: Report, inflate: Inflate)
    ensures var r := LaidOut(report, inflate);
            AllIndexed(r.pages, |r.images|) && PagePieces(r.pages, r.images) == AllPieces(Steps(report, inflate))
  {
    LayoutIsFlow(report, inflate);
    FlowAdds(BLANK, Steps(report, inflate));
    OnePagePieces([], []);
  }

  // ---------- the texts among it ----------

  function PageTexts(pages: seq<seq<Op>>): seq<string>
  {
    if pages == [] then [] else DrawnTexts(pages[0]) + PageTexts(pages[1..])
  }

  function AllLines(paras: seq<Para>): seq<string>
  {
    if paras == [] then [] else LinesOf(paras[0]) + AllLines(paras[1..])
  }

  function ParasOf(steps: seq<Step>): seq<Para>
  {
    if steps == [] then []
    else (if steps[0].Put? then [steps[0].para] else []) + ParasOf(steps[1..])
  }

  /** The paragraphs of a report, in report order. */
  function Paras(report: Report, inflate: Inflate): seq<Para>
  {
    ParasOf(Steps(report, inflate))
  }

  function TextsOf(pieces: seq<Piece>): seq<string>
  {
    if pieces == [] then [] else (if pieces[0].TextPiece? then [pieces[0].text] else []) + TextsOf(pieces[1..])
  }

  lemma {:induction false} TextsOfConcat(a: seq<Piece>, b: seq<Piece>)
    ensures TextsOf(a + b) == TextsOf(a) + TextsOf(b)
  {
    if a == [] {
      assert a + b == b;
    } else {
      assert (a + b)[1..] == a[1..] + b;
      TextsOfConcat(a[1..], b);
    }
  }

  lemma {:induction false} TextsOfOps(ops: seq<Op>, images: seq<ImageSpec>)
    requires Indexed(ops, |images|)
    ensures TextsOf(PiecesOf(ops, images)) == DrawnTexts(ops)
  {
    if ops != [] {
      assert ops[0] in ops;
      TextsOfOps(ops[1..], images);
      assert PiecesOf(ops, images)[1..] == PiecesOf(ops[1..], images);
    }
  }

  lemma {:induction false} TextsOfPages(pages: seq<seq<Op>>, images: seq<ImageSpec>)
    requires AllIndexed(pages, |images|)
    ensures TextsOf(PagePieces(pages, images)) == PageTexts(pages)
  {
    if pages != [] {
      assert pages[0] in pages;
      TextsOfOps(pages[0], images);
      TextsOfPages(pages[1..], images);
      TextsOfConcat(PiecesOf(pages[0], images), PagePieces(pages[1..], images));
    }
  }

  lemma {:induction false} TextsOfLines(lines: seq<string>, style: Style)
    ensures TextsOf(LinePieces(lines, style)) == lines
  {
    if lines != [] {
      TextsOfLines(lines[1..], style);
      assert LinePieces(lines, style)[1..] == LinePieces(lines[1..], style);
    }
  }

  lemma {:induction false} TextsOfSteps(steps: seq<Step>)
    ensures TextsOf(AllPieces(steps)) == AllLines(ParasOf(steps))
  {
    if steps != [] {
      TextsOfSteps(steps[1..]);
      TextsOfConcat(StepPieces(steps[0]), AllPieces(steps[1..]));
      TextsOfStep(steps[0]);
      assert steps[0].Put? ==> ParasOf(steps)[1..] == ParasOf(steps[1..]);
      assert !steps[0].Put? ==> ParasOf(steps) == ParasOf(steps[1..]);
    }
  }

  lemma {:induction false} TextsOfStep(step: Step)
    ensures TextsOf(StepPieces(step)) == if step.Put? then LinesOf(step.para) else []
  {
    if step.Put? {
      TextsOfLines(LinesOf(step.para), step.para.style);
    } else {
      assert TextsOf([]) == [];
      assert step.Show? ==> StepPieces(step)[1..] == [];
      assert step.Rule? ==> StepPieces(step)[1..] == [];
    }
  }

  /** The texts drawn, read page by page, are exactly the wrapped paragraphs in report order. */
  lemma {:induction false} LayoutIsLossless(report: Report, inflate: Inflate)
    ensures PageTexts(LaidOut(report, inflate).pages) == AllLines(Paras(report, inflate))
  {
    var r := LaidOut(report, inflate);
    PiecesAreLossless(report, inflate);
    TextsOfPages(r.pages, r.images);
    TextsOfSteps(Steps(report, inflate));
  }
}
