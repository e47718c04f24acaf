/** The paginated report generator as the step-by-step procedure it is: a
    document object whose cursor, page counter and operation list are updated in
    place, section by section. Each method is proved to do what the matching
    function of PdfLayout says, so the lemmas there hold of what it produces. */
module PdfGenerator {
  import opened ReportModel
  import opened PdfLayout
  import FileNames

  /** The finished document as handed to `doc.save`. */
  datatype PdfFile = PdfFile(name: string, pages: nat, ops: seq<Op>)

  /** A jsPDF document together with the generator's cursor yPos. */
  class PdfDoc {
    var y: int
    var page: nat
    var ops: seq<Op>

    function State(): Layout
      reads this
    {
      Layout(y, page, ops)
    }

    /** new jsPDF(): one empty page. */
    constructor ()
      ensures State() == Start
    {
      y, page, ops := 0, 1, [];
    }

    /** doc.text(text, 14, at) */
    method DrawText(text: string, at: int)
      modifies this
      ensures State() == Say(old(State()), at, text)
    {
      ops := ops + [Text(page, at, text)];
    }

    /** doc.text(lines, 14, y): an array of lines in one call. */
    method TextLines(lines: seq<string>)
      modifies this
      ensures State() == Emit(old(State()), Lines(old(page), old(y), lines))
    {
      ops := ops + [Lines(page, y, lines)];
    }

    /** doc.addImage(data, "JPEG", 14, y, 80, 50) */
    method AddImage(src: string)
      modifies this
      ensures State() == Emit(old(State()), Image(old(page), old(y), ImageWidth, ImageHeight, src))
    {
      ops := ops + [Image(page, y, ImageWidth, ImageHeight, src)];
    }

    /** doc.addPage(); yPos = 20; */
    method AddPage()
      modifies this
      ensures State() == NewPage(old(State()))
    {
      ops := ops + [PageBreak];
      page := page + 1;
      y := PageTop;
    }

    /** Title and metadata lines, then `let yPos = 70`. */
    method WriteHeader(r: Report)
      modifies this
      ensures State() == PlaceHeader(old(State()), r)
    {
      DrawText(ReportHeading, 22);
      DrawText(Department, 30);
      DrawText(AcademicYear, 36);
      DrawText(SubjectLine(r), 42);
      DrawText(FacultyLine(r), 48);
      DrawText(DateLine(r), 54);
      DrawText(Attendance(r.totalStudents), 60);
      y := 70;
    }

    /** The heading, then one numbered line per objective with no overflow check. */
    method WriteObjectives(objs: seq<string>)
      modifies this
      ensures State() == PlaceObjectives(old(State()), objs)
    {
      DrawText(ObjectivesHeading, y);
      y := y + LineHeight;
      ghost var s0 := State();
      var i := 0;
      while i < |objs|
        invariant 0 <= i <= |objs|
        invariant State() == ObjectiveLines(s0, objs[..i])
      {
        DrawText(Numbered(i + 1, objs[i]), y);
        y := y + LineHeight;
        i := i + 1;
        assert objs[..i][..i - 1] == objs[..i - 1];
      }
      assert objs[..|objs|] == objs;
    }

    /** The images section; `fetched[i]` is how fetching `refs[i]` turned out. */
    method WriteImages(refs: seq<string>, fetched: seq<Fetch>)
      requires |refs| == |fetched|
      modifies this
      ensures State() == PlaceImages(old(State()), refs, fetched)
    {
      if |refs| > 0 {
        y := y + 10;
        DrawText(SnapshotsHeading, y);
        y := y + LineHeight;
        ghost var s0 := State();
        var i := 0;
        while i < |refs|
          invariant 0 <= i <= |refs|
          invariant State() == ImageSteps(s0, refs[..i], fetched[..i])
        {
          if fetched[i] == FetchFailed {
            DrawText(ImageError, y);
            y := y + PlaceholderAdvance;
          } else {
            if y + ImageHeight > Bottom {
              AddPage();
            }
            if fetched[i] == Decoded {
              AddImage(refs[i]);
              y := y + ImageAdvance;
            } else {
              DrawText(ImageError, y);
              y := y + PlaceholderAdvance;
            }
          }
          i := i + 1;
          assert refs[..i][..i - 1] == refs[..i - 1] && fetched[..i][..i - 1] == fetched[..i - 1];
        }
        assert refs[..|refs|] == refs && fetched[..|fetched|] == fetched;
      } else {
        DrawText(NoImages, y);
        y := y + PlaceholderAdvance;
      }
    }

    /** `lines` is what the PDF library's text measurement made of the learning outcomes. */
    method WriteOutcomes(lines: seq<string>)
      modifies this
      ensures State() == PlaceOutcomes(old(State()), lines)
    {
      if y + OutcomesRoom > Bottom {
        AddPage();
      }
      DrawText(OutcomesHeading, y);
      y := y + LineHeight;
      TextLines(lines);
      y := y + |lines| * LineHeight;
    }

    method WriteFeedback(rows: seq<Feedback>)
      modifies this
      ensures State() == PlaceFeedback(old(State()), rows)
    {
      DrawText(FeedbackHeading, y + 10);
      y := y + 16;
      ghost var s0 := State();
      var i := 0;
      while i < |rows|
        invariant 0 <= i <= |rows|
        invariant State() == FeedbackRows(s0, rows[..i])
      {
        if y + RowRoom > Bottom {
          AddPage();
        }
        DrawText(RowLine(rows[i]), y);
        y := y + LineHeight;
        i := i + 1;
        assert rows[..i][..i - 1] == rows[..i - 1];
      }
      assert rows[..|rows|] == rows;
    }
  }

  /** generatePDFReport: the document is the report's layout, named after the title;
      it has one page more than page breaks, and every image fits above the bottom. */
  method GeneratePdfReport(r: Report, fetched: seq<Fetch>, lines: seq<string>) returns (file: PdfFile)
    requires |fetched| == |r.images|
    ensures file.name == FileNames.FileName(r.title, "pdf")
    ensures file.ops == ReportLayout(r, fetched, lines).ops
    ensures file.pages == ReportLayout(r, fetched, lines).page == 1 + Breaks(file.ops)
    ensures Marks(file.ops) == ReportContent(r, fetched, lines)
    ensures forall i | 0 <= i < |file.ops| && file.ops[i].Image? :: file.ops[i].y + ImageHeight <= Bottom
  {
    var doc := new PdfDoc();
    doc.WriteHeader(r);
    doc.WriteObjectives(r.objectives);
    doc.WriteImages(r.images, fetched);
    doc.WriteOutcomes(lines);
    doc.WriteFeedback(r.feedback);
    file := PdfFile(FileNames.FileName(r.title, "pdf"), doc.page, doc.ops);
    ReportWellFormed(r, fetched, lines);
    ReportShowsContent(r, fetched, lines);
  }
}
