/** The Word report: one section of paragraphs built declaratively from the form,
    with each image reference turned into a picture or, when fetching it failed,
    an error paragraph. The student feedback rows are not written: the document
    ends with the feedback heading. */
module WordReport {
  import opened ReportModel
  import FileNames

  /** A child of the document's only section. */
  datatype Block =
    | Title(text: string)        // a paragraph in the "Title" style
    | Bold(text: string)         // a paragraph asking for bold text
    | Para(text: string)         // a plain paragraph
    | Heading(text: string)      // a paragraph in the "Heading1" style
    | Picture(src: string, width: int, height: int)

  datatype WordFile = WordFile(name: string, blocks: seq<Block>)

  const Institute := "PUNE INSTITUTE OF COMPUTER TECHNOLOGY"
  const PictureWidth := 100
  const PictureHeight := 50

  /** What the per-image callback resolves to: the picture when the request and
      the body read succeed, the error paragraph when either rejects. */
  function ImageBlock(src: string, f: Fetch): Block {
    if f == FetchFailed then Para(ImageError) else Picture(src, PictureWidth, PictureHeight)
  }

  /** Promise.all over the references keeps their order. */
  function ImageBlocks(refs: seq<string>, fetched: seq<Fetch>): seq<Block>
    requires |refs| == |fetched|
  {
    seq(|refs|, i requires 0 <= i < |refs| => ImageBlock(refs[i], fetched[i]))
  }

  function ObjectiveBlocks(objs: seq<string>): seq<Block> {
    seq(|objs|, i requires 0 <= i < |objs| => Para(objs[i]))
  }

  function HeaderBlocks(r: Report): seq<Block> {
    [Title(Institute), Bold(Department), Para(SubjectLine(r)), Para(FacultyLine(r)),
     Para(DateLine(r)), Para(Attendance(r.totalStudents)), Para("")]
  }

  /** Everything before the images: metadata, objectives, the snapshots heading. */
  function FrontBlocks(r: Report): seq<Block> {
    HeaderBlocks(r)
    + [Heading(ObjectivesHeading)] + ObjectiveBlocks(r.objectives) + [Para("")]
    + [Heading(SnapshotsHeading)]
  }

  function TailBlocks(outcomes: string): seq<Block> {
    [Heading(OutcomesHeading), Para(outcomes), Heading(FeedbackHeading)]
  }

  /** The section's children in document order. */
  function WordBlocks(r: Report, fetched: seq<Fetch>): seq<Block>
    requires |fetched| == |r.images|
  {
    FrontBlocks(r) + ImageBlocks(r.images, fetched) + TailBlocks(r.learningOutcomes)
  }

  // ---------------------------------------------------------------------------
  // Independent readings of a document: its outline and its pictures.

  /** The headings of a block list, in order: the document's outline. */
  function Headings(bs: seq<Block>): seq<string>
    decreases |bs|
  {
    if bs == [] then []
    else Headings(bs[..|bs| - 1]) + (if bs[|bs| - 1].Heading? then [bs[|bs| - 1].text] else [])
  }

  /** The sources of the pictures of a block list, in order. */
  function Pictures(bs: seq<Block>): seq<string>
    decreases |bs|
  {
    if bs == [] then []
    else Pictures(bs[..|bs| - 1]) + (if bs[|bs| - 1].Picture? then [bs[|bs| - 1].src] else [])
  }

  /** The references whose fetch did not reject, in order. */
  function Delivered(refs: seq<string>, fetched: seq<Fetch>): seq<string>
    requires |refs| == |fetched|
    decreases |refs|
  {
    if refs == [] then []
    else
      var k := |refs| - 1;
      Delivered(refs[..k], fetched[..k]) + (if fetched[k] != FetchFailed then [refs[k]] else [])
  }

  lemma {:induction false} HeadingsAppend(a: seq<Block>, b: seq<Block>)
    ensures Headings(a + b) == Headings(a) + Headings(b)
    decreases |b|
  {
    if b == [] {
      assert a + b == a;
    } else {
      var k := |b| - 1;
      assert (a + b)[..|a + b| - 1] == a + b[..k];
      HeadingsAppend(a, b[..k]);
    }
  }

  lemma {:induction false} PicturesAppend(a: seq<Block>, b: seq<Block>)
    ensures Pictures(a + b) == Pictures(a) + Pictures(b)
    decreases |b|
  {
    if b == [] {
      assert a + b == a;
    } else {
      var k := |b| - 1;
      assert (a + b)[..|a + b| - 1] == a + b[..k];
      PicturesAppend(a, b[..k]);
    }
  }

  /** Blocks without a heading add nothing to the outline. */
  lemma {:induction false} NoHeadings(bs: seq<Block>)
    requires forall i | 0 <= i < |bs| :: !bs[i].Heading?
    ensures Headings(bs) == []
    decreases |bs|
  {
    if bs != [] {
      NoHeadings(bs[..|bs| - 1]);
    }
  }

  /** Blocks without a picture add no picture. */
  lemma {:induction false} NoPictures(bs: seq<Block>)
    requires forall i | 0 <= i < |bs| :: !bs[i].Picture?
    ensures Pictures(bs) == []
    decreases |bs|
  {
    if bs != [] {
      NoPictures(bs[..|bs| - 1]);
    }
  }

  lemma HeaderPlain(r: Report)
    ensures Headings(HeaderBlocks(r)) == [] && Pictures(HeaderBlocks(r)) == []
  {
    NoHeadings(HeaderBlocks(r));
    NoPictures(HeaderBlocks(r));
  }

  lemma ObjectivesPlain(objs: seq<string>)
    ensures Headings(ObjectiveBlocks(objs)) == [] && Pictures(ObjectiveBlocks(objs)) == []
  {
    NoHeadings(ObjectiveBlocks(objs));
    NoPictures(ObjectiveBlocks(objs));
  }

  /** The image part of the document has no heading, and its pictures are exactly
      the references that were delivered, in input order. */
  lemma {:induction false} ImageBlocksRead(refs: seq<string>, fetched: seq<Fetch>)
    requires |refs| == |fetched|
    ensures Headings(ImageBlocks(refs, fetched)) == []
    ensures Pictures(ImageBlocks(refs, fetched)) == Delivered(refs, fetched)
    decreases |refs|
  {
    if refs != [] {
      var k := |refs| - 1;
      var front := ImageBlocks(refs[..k], fetched[..k]);
      assert ImageBlocks(refs, fetched) == front + [ImageBlock(refs[k], fetched[k])];
      ImageBlocksRead(refs[..k], fetched[..k]);
      HeadingsAppend(front, [ImageBlock(refs[k], fetched[k])]);
      PicturesAppend(front, [ImageBlock(refs[k], fetched[k])]);
      assert [ImageBlock(refs[k], fetched[k])][..0] == [];
    }
  }

  /** The number of pictures plus the number of error paragraphs is the number of references. */
  lemma {:induction false} DeliveredCount(refs: seq<string>, fetched: seq<Fetch>)
    requires |refs| == |fetched|
    ensures |Delivered(refs, fetched)| + |set i | 0 <= i < |fetched| && fetched[i] == FetchFailed| == |refs|
    decreases |refs|
  {
    if refs != [] {
      var k := |refs| - 1;
      DeliveredCount(refs[..k], fetched[..k]);
      var before := set i | 0 <= i < k && fetched[..k][i] == FetchFailed;
      var now := set i | 0 <= i < |fetched| && fetched[i] == FetchFailed;
      if fetched[k] == FetchFailed {
        assert now == before + {k};
      } else {
        assert now == before;
      }
    }
  }

  // ---------------------------------------------------------------------------
  // What the Word document promises.

  lemma OneBlock(b: Block)
    ensures Headings([b]) == (if b.Heading? then [b.text] else [])
    ensures Pictures([b]) == (if b.Picture? then [b.src] else [])
  {
    assert [b][..0] == [];
  }

  /** Two headings around heading-free parts make an outline of those two. */
  lemma TwoHeadings(head: seq<Block>, first: string, mid: seq<Block>, second: string)
    requires Headings(head) == [] && Headings(mid) == []
    ensures Headings(head + [Heading(first)] + mid + [Heading(second)]) == [first, second]
  {
    OneBlock(Heading(first));
    OneBlock(Heading(second));
    HeadingsAppend(head, [Heading(first)]);
    HeadingsAppend(head + [Heading(first)], mid);
    HeadingsAppend(head + [Heading(first)] + mid, [Heading(second)]);
  }

  /** Before the images the outline has the objectives and snapshots headings. */
  lemma FrontHeadings(r: Report)
    ensures Headings(FrontBlocks(r)) == [ObjectivesHeading, SnapshotsHeading]
  {
    var mid := ObjectiveBlocks(r.objectives) + [Para("")];
    HeaderPlain(r);
    ObjectivesPlain(r.objectives);
    OneBlock(Para(""));
    HeadingsAppend(ObjectiveBlocks(r.objectives), [Para("")]);
    TwoHeadings(HeaderBlocks(r), ObjectivesHeading, mid, SnapshotsHeading);
    assert FrontBlocks(r) == HeaderBlocks(r) + [Heading(ObjectivesHeading)] + mid + [Heading(SnapshotsHeading)];
  }

  /** There is no picture before the images. */
  lemma FrontPictures(r: Report)
    ensures Pictures(FrontBlocks(r)) == []
  {
    var a := HeaderBlocks(r) + [Heading(ObjectivesHeading)];
    var b := a + ObjectiveBlocks(r.objectives);
    var c := b + [Para("")];
    HeaderPlain(r);
    OneBlock(Heading(ObjectivesHeading));
    PicturesAppend(HeaderBlocks(r), [Heading(ObjectivesHeading)]);
    ObjectivesPlain(r.objectives);
    PicturesAppend(a, ObjectiveBlocks(r.objectives));
    OneBlock(Para(""));
    PicturesAppend(b, [Para("")]);
    OneBlock(Heading(SnapshotsHeading));
    PicturesAppend(c, [Heading(SnapshotsHeading)]);
  }

  /** The closing blocks: two headings around the outcomes paragraph, no picture. */
  lemma TailRead(outcomes: string)
    ensures Headings(TailBlocks(outcomes)) == [OutcomesHeading, FeedbackHeading]
    ensures Pictures(TailBlocks(outcomes)) == []
  {
    var front := [Heading(OutcomesHeading)] + [Para(outcomes)];
    OneBlock(Heading(OutcomesHeading));
    OneBlock(Para(outcomes));
    OneBlock(Heading(FeedbackHeading));
    HeadingsAppend([Heading(OutcomesHeading)], [Para(outcomes)]);
    HeadingsAppend(front, [Heading(FeedbackHeading)]);
    PicturesAppend([Heading(OutcomesHeading)], [Para(outcomes)]);
    PicturesAppend(front, [Heading(FeedbackHeading)]);
    assert front + [Heading(FeedbackHeading)] == TailBlocks(outcomes);
  }

  /** The outline is always the same four headings in this order, whatever the
      form holds (there is a snapshots heading even without images). */
  lemma WordOutline(r: Report, fetched: seq<Fetch>)
    requires |fetched| == |r.images|
    ensures Headings(WordBlocks(r, fetched))
      == [ObjectivesHeading, SnapshotsHeading, OutcomesHeading, FeedbackHeading]
  {
    var front := FrontBlocks(r);
    var images := ImageBlocks(r.images, fetched);
    FrontHeadings(r);
    ImageBlocksRead(r.images, fetched);
    HeadingsAppend(front, images);
    TailRead(r.learningOutcomes);
    HeadingsAppend(front + images, TailBlocks(r.learningOutcomes));
  }

  /** Each delivered image appears as a picture, in input order, and no other picture does. */
  lemma WordPictures(r: Report, fetched: seq<Fetch>)
    requires |fetched| == |r.images|
    ensures Pictures(WordBlocks(r, fetched)) == Delivered(r.images, fetched)
  {
    var front := FrontBlocks(r);
    var images := ImageBlocks(r.images, fetched);
    FrontPictures(r);
    ImageBlocksRead(r.images, fetched);
    PicturesAppend(front, images);
    TailRead(r.learningOutcomes);
    PicturesAppend(front + images, TailBlocks(r.learningOutcomes));
  }

  /** The metadata paragraphs come first, then the objectives heading and one
      unnumbered paragraph per objective, then an empty paragraph. */
  lemma WordFrontPositions(r: Report, fetched: seq<Fetch>)
    requires |fetched| == |r.images|
    ensures var b := WordBlocks(r, fetched);
      var n := |r.objectives|;
      |b| > 9 + n
      && b[0] == Title(Institute) && b[1] == Bold(Department)
      && b[2] == Para(SubjectLine(r)) && b[3] == Para(FacultyLine(r))
      && b[4] == Para(DateLine(r)) && b[5] == Para(Attendance(r.totalStudents))
      && b[6] == Para("") && b[7] == Heading(ObjectivesHeading)
      && (forall i | 0 <= i < n :: b[8 + i] == Para(r.objectives[i]))
      && b[8 + n] == Para("")
  {
    var b := WordBlocks(r, fetched);
    var n := |r.objectives|;
    var a := HeaderBlocks(r) + [Heading(ObjectivesHeading)];
    var c := a + ObjectiveBlocks(r.objectives);
    var rest := [Para("")] + [Heading(SnapshotsHeading)] + ImageBlocks(r.images, fetched)
      + TailBlocks(r.learningOutcomes);
    assert b == c + rest;
    assert |a| == 8 && b[..8] == a;
    forall i | 0 <= i < n
      ensures b[8 + i] == Para(r.objectives[i])
    {
      assert b[8 + i] == c[8 + i] == ObjectiveBlocks(r.objectives)[i];
    }
    assert b[8 + n] == rest[0];
  }

  /** The snapshots heading, then one block per image reference in input order,
      then the learning outcomes heading and paragraph and the feedback heading,
      with nothing after it. */
  lemma WordImagePositions(r: Report, fetched: seq<Fetch>)
    requires |fetched| == |r.images|
    ensures var b := WordBlocks(r, fetched);
      var n := |r.objectives|;
      var m := |r.images|;
      |b| == 13 + n + m
      && b[9 + n] == Heading(SnapshotsHeading)
      && (forall j | 0 <= j < m :: b[10 + n + j] == ImageBlock(r.images[j], fetched[j]))
      && b[10 + n + m] == Heading(OutcomesHeading)
      && b[11 + n + m] == Para(r.learningOutcomes)
      && b[12 + n + m] == Heading(FeedbackHeading)
  {
    var front := FrontBlocks(r);
    assert |front| == 10 + |r.objectives| && front[9 + |r.objectives|] == Heading(SnapshotsHeading);
  }

  /** The feedback rows have no bearing on the Word document. */
  lemma WordOmitsFeedback(r: Report, fetched: seq<Fetch>, rows: seq<Feedback>)
    requires |fetched| == |r.images|
    ensures WordBlocks(r.(feedback := rows), fetched) == WordBlocks(r, fetched)
  {
  }

  /** generateWordReport: the document's blocks, named after the title with ".docx". */
  method GenerateWordReport(r: Report, fetched: seq<Fetch>) returns (file: WordFile)
    requires |fetched| == |r.images|
    ensures file.name == FileNames.FileName(r.title, "docx")
    ensures file.blocks == WordBlocks(r, fetched)
    ensures Headings(file.blocks) == [ObjectivesHeading, SnapshotsHeading, OutcomesHeading, FeedbackHeading]
    ensures Pictures(file.blocks) == Delivered(r.images, fetched)
  {
    var images := ImageBlocks(r.images, fetched);
    file := WordFile(FileNames.FileName(r.title, "docx"),
      FrontBlocks(r) + images + TailBlocks(r.learningOutcomes));
    WordOutline(r, fetched);
    WordPictures(r, fetched);
  }
}
