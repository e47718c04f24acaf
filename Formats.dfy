/** The two documents generated from one form, compared: where they say the same
    thing and where they differ. The PDF side is read through its content in
    reading order (PdfLayout.ReportContent, which the generated document is proved
    to show), the Word side through its list of section children. */
module Formats {
  import opened ReportModel
  import opened PdfLayout
  import opened WordReport
  import FileNames

  /** The PDF content before the images: the seven header lines, the objectives
      heading, and one numbered line per objective. */
  lemma PdfFrontPositions(r: Report, fetched: seq<Fetch>, lines: seq<string>)
    requires |fetched| == |r.images|
    ensures var p := ReportContent(r, fetched, lines);
      |p| > 8 + |r.objectives|
      && p[0] == Said(ReportHeading) && p[1] == Said(Department) && p[2] == Said(AcademicYear)
      && p[3] == Said(SubjectLine(r)) && p[4] == Said(FacultyLine(r))
      && p[5] == Said(DateLine(r)) && p[6] == Said(Attendance(r.totalStudents))
      && p[7] == Said(ObjectivesHeading)
      && (forall i | 0 <= i < |r.objectives| :: p[8 + i] == Said(Numbered(i + 1, r.objectives[i])))
  {
    var p := ReportContent(r, fetched, lines);
    var n := |r.objectives|;
    var a := HeaderMarks(r) + [Said(ObjectivesHeading)];
    var c := a + NumberedMarks(r.objectives);
    var images := if r.images == [] then [Said(NoImages)]
                  else [Said(SnapshotsHeading)] + ImageMarks(r.images, fetched);
    var rest := images + [Said(OutcomesHeading), Wrapped(lines)] + [Said(FeedbackHeading)]
      + RowMarks(r.feedback);
    assert p == c + rest;
    assert |a| == 8 && p[..8] == a;
    forall i | 0 <= i < n
      ensures p[8 + i] == Said(Numbered(i + 1, r.objectives[i]))
    {
      assert p[8 + i] == c[8 + i] == NumberedMarks(r.objectives)[i];
    }
  }

  /** The images part of the PDF content, right after the objectives: the "no
      images" line, or the snapshots heading and one image or placeholder per
      reference in input order. */
  lemma PdfImagePositions(r: Report, fetched: seq<Fetch>, lines: seq<string>)
    requires |fetched| == |r.images|
    ensures var p := ReportContent(r, fetched, lines);
      var n := |r.objectives|;
      var m := |r.images|;
      |p| > 9 + n + m
      && (m == 0 ==> p[8 + n] == Said(NoImages))
      && (m > 0 ==> p[8 + n] == Said(SnapshotsHeading))
      && (forall j | 0 <= j < m ::
            p[9 + n + j] == if fetched[j] == Decoded then Pictured(r.images[j]) else Said(ImageError))
  {
    var front := HeaderMarks(r) + [Said(ObjectivesHeading)] + NumberedMarks(r.objectives);
    var images := if r.images == [] then [Said(NoImages)]
                  else [Said(SnapshotsHeading)] + ImageMarks(r.images, fetched);
    var tail := [Said(OutcomesHeading), Wrapped(lines)] + [Said(FeedbackHeading)] + RowMarks(r.feedback);
    assert ReportContent(r, fetched, lines) == front + images + tail;
    assert |front| == 8 + |r.objectives|;
  }

  /** The PDF content after the images: the learning outcomes heading and wrapped
      block, the feedback heading, and one line per feedback row, last. */
  lemma PdfTailPositions(r: Report, fetched: seq<Fetch>, lines: seq<string>)
    requires |fetched| == |r.images|
    ensures var p := ReportContent(r, fetched, lines);
      var rows := |r.feedback|;
      var k := if r.images == [] then 1 else 1 + |r.images|;
      var o := 8 + |r.objectives| + k;
      |p| == o + 3 + rows
      && p[o] == Said(OutcomesHeading) && p[o + 1] == Wrapped(lines)
      && p[o + 2] == Said(FeedbackHeading)
      && p[o + 3..] == RowMarks(r.feedback)
  {
    var images := if r.images == [] then [Said(NoImages)]
                  else [Said(SnapshotsHeading)] + ImageMarks(r.images, fetched);
    var front := HeaderMarks(r) + [Said(ObjectivesHeading)] + NumberedMarks(r.objectives) + images;
    var tail := [Said(OutcomesHeading), Wrapped(lines), Said(FeedbackHeading)] + RowMarks(r.feedback);
    assert ReportContent(r, fetched, lines) == front + tail;
    assert |front| == 8 + |r.objectives| + |images|;
  }

  /** Both documents carry the subject, faculty, date and attendance lines with
      the same text: PDF content 3 to 6, Word children 2 to 5. */
  lemma SameMetadata(r: Report, fetched: seq<Fetch>, lines: seq<string>)
    requires |fetched| == |r.images|
    ensures var p := ReportContent(r, fetched, lines);
      var w := WordBlocks(r, fetched);
      forall k | 2 <= k < 6 :: w[k].Para? && p[k + 1] == Said(w[k].text)
  {
    PdfFrontPositions(r, fetched, lines);
    WordFrontPositions(r, fetched);
  }

  /** The objectives appear in the same order in both; the PDF numbers them from
      1, the Word document does not. */
  lemma ObjectivesAgree(r: Report, fetched: seq<Fetch>, lines: seq<string>)
    requires |fetched| == |r.images|
    ensures var p := ReportContent(r, fetched, lines);
      var w := WordBlocks(r, fetched);
      forall i | 8 <= i < 8 + |r.objectives| ::
        w[i].Para? && p[i] == Said(Numbered(i - 7, w[i].text))
  {
    var p := ReportContent(r, fetched, lines);
    var w := WordBlocks(r, fetched);
    PdfFrontPositions(r, fetched, lines);
    WordFrontPositions(r, fetched);
    forall i | 8 <= i < 8 + |r.objectives|
      ensures w[i].Para? && p[i] == Said(Numbered(i - 7, w[i].text))
    {
      var j := i - 8;
      assert w[8 + j] == Para(r.objectives[j]);
      assert p[8 + j] == Said(Numbered(j + 1, r.objectives[j]));
    }
  }

  /** One image slot per reference in both, in the same order. Each document
      fetches every reference on its own, so the two may see different outcomes:
      a Word slot is a picture exactly when its fetch delivered something, a PDF
      slot exactly when its fetch delivered an image. Where both fetches of a
      reference turned out the same, a Word error paragraph is a PDF placeholder,
      a PDF image is a Word picture of the same reference, and they disagree
      exactly when what was delivered is not an image, which Word embeds as a
      picture and the PDF replaces with the placeholder. */
  lemma ImagesAgree(r: Report, pdfFetched: seq<Fetch>, wordFetched: seq<Fetch>, lines: seq<string>)
    requires |pdfFetched| == |wordFetched| == |r.images| && r.images != []
    ensures var p := ReportContent(r, pdfFetched, lines);
      var w := WordBlocks(r, wordFetched);
      var n := |r.objectives|;
      p[8 + n] == Said(SnapshotsHeading) && w[9 + n] == Heading(SnapshotsHeading)
      && forall j | 0 <= j < |r.images| ::
        (p[9 + n + j].Pictured? <==> pdfFetched[j] == Decoded)
        && (w[10 + n + j].Picture? <==> wordFetched[j] != FetchFailed)
        && (p[9 + n + j].Pictured? ==> p[9 + n + j].src == r.images[j])
        && (w[10 + n + j].Picture? ==> w[10 + n + j].src == r.images[j])
        && (pdfFetched[j] == wordFetched[j] ==>
              (w[10 + n + j] == Para(ImageError) ==> p[9 + n + j] == Said(ImageError))
              && (p[9 + n + j].Pictured? ==> w[10 + n + j] == Picture(p[9 + n + j].src, PictureWidth, PictureHeight))
              && (w[10 + n + j].Picture? && p[9 + n + j] == Said(ImageError) <==> pdfFetched[j] == NotAnImage))
  {
    PdfImagePositions(r, pdfFetched, lines);
    WordImagePositions(r, wordFetched);
  }

  /** Without images the PDF prints the "no images" line where the snapshots
      heading would be, while the Word document keeps an empty snapshots section:
      its heading is followed directly by the learning outcomes heading. */
  lemma NoImagesDiffer(r: Report, lines: seq<string>)
    requires r.images == []
    ensures var p := ReportContent(r, [], lines);
      var w := WordBlocks(r, []);
      var n := |r.objectives|;
      p[8 + n] == Said(NoImages) && p[9 + n] == Said(OutcomesHeading)
      && w[9 + n] == Heading(SnapshotsHeading) && w[10 + n] == Heading(OutcomesHeading)
  {
    PdfImagePositions(r, [], lines);
    PdfTailPositions(r, [], lines);
    WordImagePositions(r, []);
  }

  /** The PDF ends with one line per feedback row after the feedback heading;
      the Word document ends at that heading whatever the rows are. */
  lemma FeedbackOnlyInPdf(r: Report, fetched: seq<Fetch>, lines: seq<string>)
    requires |fetched| == |r.images|
    ensures var p := ReportContent(r, fetched, lines);
      var w := WordBlocks(r, fetched);
      var rows := |r.feedback|;
      p[|p| - rows - 1] == Said(FeedbackHeading)
      && p[|p| - rows..] == RowMarks(r.feedback)
      && w[|w| - 1] == Heading(FeedbackHeading)
      && forall other: seq<Feedback> :: WordBlocks(r.(feedback := other), fetched) == w
  {
    PdfTailPositions(r, fetched, lines);
    WordImagePositions(r, fetched);
    forall other: seq<Feedback>
      ensures WordBlocks(r.(feedback := other), fetched) == WordBlocks(r, fetched)
    {
      WordOmitsFeedback(r, fetched, other);
    }
  }

  /** The two files share their stem, the title with its whitespace runs turned
      into underscores, and differ only in the extension. */
  lemma SameStem(title: string)
    ensures var stem := FileNames.Underscored(title);
      var pdf := FileNames.FileName(title, "pdf");
      var docx := FileNames.FileName(title, "docx");
      pdf[..|stem|] == docx[..|stem|] == stem
      && pdf[|stem|..] == ".pdf" && docx[|stem|..] == ".docx"
      && pdf != docx
  {
    FileNames.FileNameShape(title, "pdf");
    FileNames.FileNameShape(title, "docx");
    var stem := FileNames.Underscored(title);
    assert |FileNames.FileName(title, "pdf")| != |FileNames.FileName(title, "docx")|;
  }
}
