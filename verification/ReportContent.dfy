/** What a report's pages show, told from the report's own fields: every visible character in order, with
    the size, the face and the shade it is drawn in, and the pictures between them. */
module ReportContent {
  import opened Wrappers
  import opened Text
  import opened PngDecode
  import opened WordWrap
  import opened PdfShapes
  import opened ReportLayout

  /** A visible character as it is drawn, a picture, or the rule. */
  datatype Sight =
    | Letter(ch: char, size: nat, bold: bool, gray: nat)
    | Picture(spec: ImageSpec)
    | Line

  /** The visible characters of a text. */
  function Shown(text: string, size: nat, bold: bool, gray: nat): seq<Sight>
  {
    if text == "" then []
    else (if PySpace(text[0]) then [] else [Letter(text[0], size, bold, gray)]) + Shown(text[1..], size, bold, gray)
  }

  function SeenOf(piece: Piece): seq<Sight>
  {
    match piece
    case TextPiece(text, size, bold, gray) => Shown(text, size, bold, gray)
    case PicturePiece(spec) => [Picture(spec)]
    case RulePiece => [Line]
  }

  function Seen(pieces: seq<Piece>): seq<Sight>
  {
    if pieces == [] then [] else SeenOf(pieces[0]) + Seen(pieces[1..])
  }

  // ---------- what a report should show ----------

  /** The section's picture, if there is one and it can be decoded; a note otherwise. */
  function PictureShows(section: Section, inflate: Inflate): seq<Sight>
  {
    if section.chart.Some? && PdfImageOf(section.chart.value, inflate).Some?
    then [Picture(PdfImageOf(section.chart.value, inflate).value)]
    else Shown("[chart image unavailable in this export]", 9, false, 60)
  }

  function SectionShows(section: Section, inflate: Inflate): seq<Sight>
  {
    Shown(section.title, 13, true, 10)
    + Shown(section.metricName, 9, false, 45)
    + (if section.total.Some? then Shown(" \U{B7} total " + section.total.value, 9, false, 45) else [])
    + Shown(" \U{B7} " + section.rowCount + " rows", 9, false, 45)
    + PictureShows(section, inflate)
    + Shown(section.narrative, 10, false, 20)
  }

  function SectionsShow(sections: seq<Section>, inflate: Inflate): seq<Sight>
  {
    if sections == [] then [] else SectionShows(sections[0], inflate) + SectionsShow(sections[1..], inflate)
  }

  function WarningsShow(warnings: seq<string>): seq<Sight>
  {
    if warnings == [] then [] else Shown("\U{26A0} " + warnings[0], 8, false, 50) + WarningsShow(warnings[1..])
  }

  /** Title, date and number of sections, the rule, summary, sections, warnings. */
  function ReportShows(report: Report, inflate: Inflate): seq<Sight>
  {
    Shown(report.title, 20, true, 0)
    + Shown("Generated " + report.createdAt + " \U{B7} " + Dec(|report.sections|) + " sections", 9, false, 45)
    + [Line]
    + Shown(report.summary, 10, false, 25)
    + SectionsShow(report.sections, inflate)
    + WarningsShow(report.warnings)
  }

  // ---------- wrapping loses nothing that is visible ----------

  function Dressed(ink: string, size: nat, bold: bool, gray: nat): seq<Sight>
  {
    if ink == "" then [] else [Letter(ink[0], size, bold, gray)] + Dressed(ink[1..], size, bold, gray)
  }

  lemma {:induction false} ShownIsInk(text: string, size: nat, bold: bool, gray: nat)
    ensures Shown(text, size, bold, gray) == Dressed(Ink(text), size, bold, gray)
  {
    if text != "" {
      ShownIsInk(text[1..], size, bold, gray);
      assert PySpace(text[0]) ==> Ink(text) == Ink(text[1..]);
      assert !PySpace(text[0]) ==> Ink(text)[0] == text[0] && Ink(text)[1..] == Ink(text[1..]);
    }
  }

  lemma {:induction false} ShownConcat(a: string, b: string, size: nat, bold: bool, gray: nat)
    ensures Shown(a + b, size, bold, gray) == Shown(a, size, bold, gray) + Shown(b, size, bold, gray)
  {
    if a == "" {
      assert a + b == b;
    } else {
      var first := if PySpace(a[0]) then [] else [Letter(a[0], size, bold, gray)];
      assert (a + b)[1..] == a[1..] + b && (a + b)[0] == a[0];
      ShownConcat(a[1..], b, size, bold, gray);
      assert Shown(a + b, size, bold, gray) == first + Shown(a[1..] + b, size, bold, gray);
    }
  }

  lemma {:induction false} SeenConcat(a: seq<Piece>, b: seq<Piece>)
    ensures Seen(a + b) == Seen(a) + Seen(b)
  {
    if a == [] {
      assert a + b == b;
    } else {
      assert (a + b)[1..] == a[1..] + b;
      SeenConcat(a[1..], b);
    }
  }

  lemma {:induction false} SeenLines(lines: seq<string>, style: Style)
    ensures Seen(LinePieces(lines, style)) == Shown(Flatten(lines), style.size, style.bold, style.gray)
  {
    if lines != [] {
      SeenLines(lines[1..], style);
      assert LinePieces(lines, style)[1..] == LinePieces(lines[1..], style);
      ShownConcat(lines[0], Flatten(lines[1..]), style.size, style.bold, style.gray);
    }
  }

  function ParaShows(p: Para): seq<Sight>
  {
    Shown(p.text, p.style.size, p.style.bold, p.style.gray)
  }

  /** The visible characters of a paragraph, whatever lines it is wrapped to. */
  lemma {:induction false} SeenPara(p: Para)
    ensures Seen(LinePieces(LinesOf(p), p.style)) == ParaShows(p)
  {
    SeenLines(LinesOf(p), p.style);
    WrapKeepsInk(p.text, ColumnOf(p));
    ShownIsInk(Flatten(LinesOf(p)), p.style.size, p.style.bold, p.style.gray);
    ShownIsInk(p.text, p.style.size, p.style.bold, p.style.gray);
  }

  function StepShows(step: Step): seq<Sight>
  {
    match step
    case Put(p) => ParaShows(p)
    case Show(spec) => [Picture(spec)]
    case Rule => [Line]
    case _ => []
  }

  function StepsShow(steps: seq<Step>): seq<Sight>
  {
    if steps == [] then [] else StepShows(steps[0]) + StepsShow(steps[1..])
  }

  lemma {:induction false} SeenStep(step: Step)
    ensures Seen(StepPieces(step)) == StepShows(step)
  {
    if step.Put? {
      SeenPara(step.para);
    } else {
      assert Seen([]) == [];
      assert StepPieces(step) != [] ==> StepPieces(step)[1..] == [];
    }
  }

  lemma {:induction false} SeenSteps(steps: seq<Step>)
    ensures Seen(AllPieces(steps)) == StepsShow(steps)
  {
    if steps != [] {
      SeenStep(steps[0]);
      SeenSteps(steps[1..]);
      SeenConcat(StepPieces(steps[0]), AllPieces(steps[1..]));
    }
  }

  lemma {:induction false} StepsShowConcat(a: seq<Step>, b: seq<Step>)
    ensures StepsShow(a + b) == StepsShow(a) + StepsShow(b)
  {
    if a == [] {
      assert a + b == b;
    } else {
      assert (a + b)[1..] == a[1..] + b;
      StepsShowConcat(a[1..], b);
    }
  }

  lemma {:induction false} OneStepShows(step: Step)
    ensures StepsShow([step]) == StepShows(step)
  {
    var one := [step];
    assert one[1..] == [] && StepsShow([]) == [];
  }

  // ---------- the steps show the report ----------

  lemma {:induction false} MetaShows(section: Section)
    ensures var total := if section.total.Some? then " \U{B7} total " + section.total.value else "";
            Shown(section.metricName + total + " \U{B7} " + section.rowCount + " rows", 9, false, 45)
            == Shown(section.metricName, 9, false, 45)
            + (if section.total.Some? then Shown(" \U{B7} total " + section.total.value, 9, false, 45) else [])
            + Shown(" \U{B7} " + section.rowCount + " rows", 9, false, 45)
  {
    var total := if section.total.Some? then " \U{B7} total " + section.total.value else "";
    MetaParts(section.metricName, total, " \U{B7} ", section.rowCount, " rows");
  }

  lemma {:induction false} MetaParts(name: string, total: string, dot: string, count: string, rows: string)
    ensures Shown(name + total + dot + count + rows, 9, false, 45)
         == Shown(name, 9, false, 45) + Shown(total, 9, false, 45) + Shown(dot + count + rows, 9, false, 45)
  {
    assert name + total + dot + count + rows == (name + total) + (dot + count + rows);
    ShownConcat(name + total, dot + count + rows, 9, false, 45);
    ShownConcat(name, total, 9, false, 45);
  }

  lemma {:induction false} NoteShows()
    ensures StepsShow([NOTE]) == Shown("[chart image unavailable in this export]", 9, false, 60)
  {
    OneStepShows(NOTE);
  }

  lemma {:induction false} RoomAndNoteShow()
    ensures StepsShow([Room(240), NOTE]) == StepsShow([NOTE])
  {
    var steps := [Room(240), NOTE];
    assert steps[1..] == [NOTE] && StepShows(steps[0]) == [];
  }

  /** One of three lists of steps. */
  lemma {:induction false} PictureOrNote(steps: seq<Step>, spec: Option<ImageSpec>)
    requires if spec.Some? then steps == [Show(spec.value)] else steps == [NOTE] || steps == [Room(240), NOTE]
    ensures StepsShow(steps) == if spec.Some? then [Picture(spec.value)] else StepsShow([NOTE])
  {
    if spec.Some? {
      OneStepShows(Show(spec.value));
    } else if steps != [NOTE] {
      RoomAndNoteShow();
    }
  }

  lemma {:induction false} PictureIsShown(section: Section, inflate: Inflate)
    ensures StepsShow(PictureSteps(section.chart, inflate)) == PictureShows(section, inflate)
  {
    NoteShows();
    PictureOrNote(PictureSteps(section.chart, inflate),
                  if section.chart.Some? then PdfImageOf(section.chart.value, inflate) else None);
  }

  lemma {:induction false} HeadingShows(title: Para, meta: Para)
    ensures StepsShow([Room(90), Put(title), Put(meta)]) == ParaShows(title) + ParaShows(meta)
  {
    assert [Room(90), Put(title), Put(meta)] == [Room(90)] + [Put(title)] + [Put(meta)];
    StepsShowConcat([Room(90)] + [Put(title)], [Put(meta)]);
    StepsShowConcat([Room(90)], [Put(title)]);
    OneStepShows(Room(90));
    OneStepShows(Put(title));
    OneStepShows(Put(meta));
  }

  lemma {:induction false} ThreeShow(a: seq<Step>, b: seq<Step>, c: seq<Step>)
    ensures StepsShow(a + b + c) == StepsShow(a) + StepsShow(b) + StepsShow(c)
  {
    StepsShowConcat(a + b, c);
    StepsShowConcat(a, b);
  }

  lemma {:induction false} StoryShows(section: Section, story: Step)
    requires story == if section.narrative == "" then Skip(8) else Put(NarrativePara(section))
    ensures StepsShow([story]) == Shown(section.narrative, 10, false, 20)
  {
    OneStepShows(story);
  }

  lemma {:induction false} TitleShows(section: Section)
    ensures ParaShows(SectionTitle(section)) == Shown(section.title, 13, true, 10)
    ensures ParaShows(SectionMeta(section))
         == Shown(section.metricName, 9, false, 45)
            + (if section.total.Some? then Shown(" \U{B7} total " + section.total.value, 9, false, 45) else [])
            + Shown(" \U{B7} " + section.rowCount + " rows", 9, false, 45)
  {
    MetaShows(section);
  }

  lemma {:induction false} SectionIsShown(section: Section, inflate: Inflate)
    ensures StepsShow(SectionSteps(section, inflate)) == SectionShows(section, inflate)
  {
    var title, meta := SectionTitle(section), SectionMeta(section);
    var story := if section.narrative == "" then Skip(8) else Put(NarrativePara(section));
    StepsOfSection(section, inflate, title, meta, story);
    ThreeShow([Room(90), Put(title), Put(meta)], PictureSteps(section.chart, inflate), [story]);
    HeadingShows(title, meta);
    TitleShows(section);
    PictureIsShown(section, inflate);
    StoryShows(section, story);
    Regroup(Shown(section.title, 13, true, 10), Shown(section.metricName, 9, false, 45),
            if section.total.Some? then Shown(" \U{B7} total " + section.total.value, 9, false, 45) else [],
            Shown(" \U{B7} " + section.rowCount + " rows", 9, false, 45));
  }

  lemma {:induction false} Regroup(a: seq<Sight>, b: seq<Sight>, c: seq<Sight>, d: seq<Sight>)
    ensures a + (b + c + d) == a + b + c + d
  {
  }

  lemma {:induction false} SectionsAreShown(sections: seq<Section>, inflate: Inflate)
    ensures StepsShow(AllSectionSteps(sections, inflate)) == SectionsShow(sections, inflate)
  {
    if sections != [] {
      SectionIsShown(sections[0], inflate);
      SectionsAreShown(sections[1..], inflate);
      StepsShowConcat(SectionSteps(sections[0], inflate), AllSectionSteps(sections[1..], inflate));
    }
  }

  lemma {:induction false} WarningsAreShown(warnings: seq<string>)
    ensures StepsShow(WarningSteps(warnings)) == WarningsShow(warnings)
  {
    if warnings != [] {
      WarningsAreShown(warnings[1..]);
      assert WarningSteps(warnings)[1..] == WarningSteps(warnings[1..]);
    }
  }

  lemma {:induction false} SummaryIsShown(report: Report)
    ensures StepsShow(SummarySteps(report)) == Shown(report.summary, 10, false, 25)
  {
    if report.summary != "" {
      OneStepShows(Put(Para(report.summary, Style(10, false, 25, 10))));
    }
  }

  lemma {:induction false} HeadShows(title: Para, byline: Para)
    ensures StepsShow([Put(title), Put(byline), Rule]) == ParaShows(title) + ParaShows(byline) + [Line]
  {
    assert [Put(title), Put(byline), Rule] == [Put(title)] + [Put(byline)] + [Rule];
    StepsShowConcat([Put(title)] + [Put(byline)], [Rule]);
    StepsShowConcat([Put(title)], [Put(byline)]);
    OneStepShows(Put(title));
    OneStepShows(Put(byline));
    OneStepShows(Rule);
  }

  lemma {:induction false} BodyShows(report: Report, inflate: Inflate)
    ensures StepsShow(SummarySteps(report) + AllSectionSteps(report.sections, inflate) + WarningSteps(report.warnings))
         == Shown(report.summary, 10, false, 25) + SectionsShow(report.sections, inflate)
            + WarningsShow(report.warnings)
  {
    var a, b, c := SummarySteps(report), AllSectionSteps(report.sections, inflate), WarningSteps(report.warnings);
    StepsShowConcat(a + b, c);
    StepsShowConcat(a, b);
    SummaryIsShown(report);
    SectionsAreShown(report.sections, inflate);
    WarningsAreShown(report.warnings);
  }

  lemma {:induction false} BylineShows(report: Report)
    ensures ParaShows(TitlePara(report)) == Shown(report.title, 20, true, 0)
    ensures ParaShows(BylinePara(report))
         == Shown("Generated " + report.createdAt + " \U{B7} " + Dec(|report.sections|) + " sections", 9, false, 45)
  {
  }

  lemma {:induction false} RegroupReport(a: seq<Sight>, b: seq<Sight>, c: seq<Sight>, d: seq<Sight>, e: seq<Sight>,
                                         f: seq<Sight>)
    ensures (a + b + c) + (d + e + f) == a + b + c + d + e + f
  {
  }

  lemma {:induction false} StepsShowReport(report: Report, inflate: Inflate)
    ensures StepsShow(Steps(report, inflate)) == ReportShows(report, inflate)
  {
    var title, byline := TitlePara(report), BylinePara(report);
    StepsInFour(report, inflate, title, byline);
    StepsShowConcat([Put(title), Put(byline), Rule],
                    SummarySteps(report) + AllSectionSteps(report.sections, inflate) + WarningSteps(report.warnings));
    HeadShows(title, byline);
    BodyShows(report, inflate);
    BylineShows(report);
    RegroupReport(ParaShows(title), ParaShows(byline), [Line], Shown(report.summary, 10, false, 25),
                  SectionsShow(report.sections, inflate), WarningsShow(report.warnings));
  }

  /** Whatever the report, its pages show, character by character and in this order: the title, the date and
      the number of sections, the rule, the summary, each section's title, metric, total if it has one, number
      of rows, its picture or else a note, and narrative, and the warnings; each text in its size, face and
      shade. */
  lemma {:induction false} PagesShowReport(report: Report, inflate: Inflate)
    ensures var r := LaidOut(report, inflate);
            AllIndexed(r.pages, |r.images|) && Seen(PagePieces(r.pages, r.images)) == ReportShows(report, inflate)
  {
    PiecesAreLossless(report, inflate);
    SeenSteps(Steps(report, inflate));
    StepsShowReport(report, inflate);
  }
}
