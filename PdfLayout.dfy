/** The paginated (PDF) report as a value: the vertical cursor, the current page
    and the draw operations issued so far, and one function per section of the
    generator saying how that section moves the cursor and what it draws. The
    generator itself (PdfGenerator) is proved to follow these functions; the
    lemmas here state what the layout guarantees. */
module PdfLayout {
  import opened ReportModel
  import Decimal

  /** Lowest cursor position at which a page-checked element may start its room. */
  const Bottom := 280
  /** Cursor position on a freshly added page. */
  const PageTop := 20
  const LineHeight := 6
  const ImageWidth := 80
  const ImageHeight := 50
  /** Cursor advance after a placed image, and after a placeholder line. */
  const ImageAdvance := 60
  const PlaceholderAdvance := 10
  /** Room demanded before the learning-outcomes heading and before a feedback row. */
  const OutcomesRoom := 20
  const RowRoom := 10

  const ReportHeading := "Teaching Activity Report"
  const AcademicYear := "Academic Year: 2023-2024"
  const NoImages := "No images uploaded."

  /** One call on the PDF document, with the page it lands on. Everything is
      drawn at the left margin x = 14, so x is not recorded. */
  datatype Op =
    | Text(page: nat, y: int, text: string)
    | Lines(page: nat, y: int, lines: seq<string>)
    | Image(page: nat, y: int, width: int, height: int, src: string)
    | PageBreak

  predicate Drawn(op: Op) {
    !op.PageBreak?
  }

  /** Number of page breaks among the operations. */
  function Breaks(ops: seq<Op>): nat
    decreases |ops|
  {
    if ops == [] then 0
    else Breaks(ops[..|ops| - 1]) + (if ops[|ops| - 1].PageBreak? then 1 else 0)
  }

  /** What a reader sees of an operation, regardless of where it is placed. */
  datatype Mark = Said(text: string) | Wrapped(lines: seq<string>) | Pictured(src: string)

  function MarkOf(op: Op): seq<Mark> {
    match op
    case Text(_, _, t) => [Said(t)]
    case Lines(_, _, ls) => [Wrapped(ls)]
    case Image(_, _, _, _, src) => [Pictured(src)]
    case PageBreak => []
  }

  /** The content of a document in reading order, page breaks dropped. */
  function Marks(ops: seq<Op>): seq<Mark>
    decreases |ops|
  {
    if ops == [] then [] else Marks(ops[..|ops| - 1]) + MarkOf(ops[|ops| - 1])
  }

  /** The generator's state: the cursor yPos, the current page and the document so far. */
  datatype Layout = Layout(y: int, page: nat, ops: seq<Op>)

  /** A new jsPDF document: one page, nothing drawn; the cursor is not used
      before the header sets it. */
  const Start := Layout(0, 1, [])

  function Emit(s: Layout, op: Op): Layout {
    s.(ops := s.ops + [op])
  }

  /** doc.text(text, 14, at) on the current page. */
  function Say(s: Layout, at: int, text: string): Layout {
    Emit(s, Text(s.page, at, text))
  }

  function Down(s: Layout, dy: int): Layout {
    s.(y := s.y + dy)
  }

  /** doc.addPage() followed by yPos = 20. */
  function NewPage(s: Layout): Layout {
    Layout(PageTop, s.page + 1, s.ops + [PageBreak])
  }

  /** The overflow check: a new page when the next `need` units would pass Bottom. */
  function MakeRoom(s: Layout, need: int): Layout {
    if s.y + need > Bottom then NewPage(s) else s
  }

  /** The title lines at 22, 30 and 36. */
  function PlaceTitle(s: Layout): Layout {
    Say(Say(Say(s, 22, ReportHeading), 30, Department), 36, AcademicYear)
  }

  /** The metadata lines at 42, 48, 54 and 60. */
  function PlaceMetadata(s: Layout, r: Report): Layout {
    Say(Say(Say(Say(s, 42, SubjectLine(r)), 48, FacultyLine(r)), 54, DateLine(r)),
      60, Attendance(r.totalStudents))
  }

  /** Title and metadata lines at fixed positions, then yPos = 70. */
  function PlaceHeader(s: Layout, r: Report): Layout {
    PlaceMetadata(PlaceTitle(s), r).(y := 70)
  }

  /** `${index + 1}. ${obj}` */
  function Numbered(i: nat, obj: string): string {
    Decimal.NatToString(i) + ". " + obj
  }

  /** The objectives loop after its heading: one line each, no overflow check. */
  function ObjectiveLines(s: Layout, objs: seq<string>): Layout
    decreases |objs|
  {
    if objs == [] then s
    else
      var k := |objs| - 1;
      var t := ObjectiveLines(s, objs[..k]);
      Down(Say(t, t.y, Numbered(k + 1, objs[k])), LineHeight)
  }

  function PlaceObjectives(s: Layout, objs: seq<string>): Layout {
    ObjectiveLines(Down(Say(s, s.y, ObjectivesHeading), LineHeight), objs)
  }

  /** One pass of the image loop. A rejected fetch prints the placeholder with no
      overflow check; otherwise the overflow check comes first, then addImage,
      which either places the image or throws into the same placeholder. */
  function ImageStep(s: Layout, src: string, f: Fetch): Layout {
    if f == FetchFailed then Down(Say(s, s.y, ImageError), PlaceholderAdvance)
    else
      var t := MakeRoom(s, ImageHeight);
      if f == Decoded then Down(Emit(t, Image(t.page, t.y, ImageWidth, ImageHeight, src)), ImageAdvance)
      else Down(Say(t, t.y, ImageError), PlaceholderAdvance)
  }

  function ImageSteps(s: Layout, refs: seq<string>, fetched: seq<Fetch>): Layout
    requires |refs| == |fetched|
    decreases |refs|
  {
    if refs == [] then s
    else
      var k := |refs| - 1;
      ImageStep(ImageSteps(s, refs[..k], fetched[..k]), refs[k], fetched[k])
  }

  function PlaceImages(s: Layout, refs: seq<string>, fetched: seq<Fetch>): Layout
    requires |refs| == |fetched|
  {
    if refs == [] then Down(Say(s, s.y, NoImages), PlaceholderAdvance)
    else
      var h := Down(s, 10);
      ImageSteps(Down(Say(h, h.y, SnapshotsHeading), LineHeight), refs, fetched)
  }

  /** Overflow check, heading, then the wrapped lines in one text call. */
  function PlaceOutcomes(s: Layout, lines: seq<string>): Layout {
    var t := MakeRoom(s, OutcomesRoom);
    var h := Down(Say(t, t.y, OutcomesHeading), LineHeight);
    Down(Emit(h, Lines(h.page, h.y, lines)), LineHeight * |lines|)
  }

  /** `Roll No: ${fb.rollNo} - ${fb.expectation}` */
  function RowLine(fb: Feedback): string {
    "Roll No: " + fb.rollNo + " - " + fb.expectation
  }

  function FeedbackRow(s: Layout, fb: Feedback): Layout {
    var t := MakeRoom(s, RowRoom);
    Down(Say(t, t.y, RowLine(fb)), LineHeight)
  }

  function FeedbackRows(s: Layout, rows: seq<Feedback>): Layout
    decreases |rows|
  {
    if rows == [] then s
    else
      var k := |rows| - 1;
      FeedbackRow(FeedbackRows(s, rows[..k]), rows[k])
  }

  /** The heading is drawn 10 below the cursor, which then moves 16. */
  function PlaceFeedback(s: Layout, rows: seq<Feedback>): Layout {
    FeedbackRows(Down(Say(s, s.y + 10, FeedbackHeading), 16), rows)
  }

  /** The whole paginated report, section by section. */
  function ReportLayout(r: Report, fetched: seq<Fetch>, lines: seq<string>): Layout
    requires |fetched| == |r.images|
  {
    var header := PlaceHeader(Start, r);
    var objectives := PlaceObjectives(header, r.objectives);
    var images := PlaceImages(objectives, r.images, fetched);
    var outcomes := PlaceOutcomes(images, lines);
    PlaceFeedback(outcomes, r.feedback)
  }

  // ---------------------------------------------------------------------------
  // Reference content: what the document shows, independent of placement.

  function NumberedMarks(objs: seq<string>): seq<Mark> {
    seq(|objs|, i requires 0 <= i < |objs| => Said(Numbered(i + 1, objs[i])))
  }

  /** One mark per image reference, in input order: the image or its placeholder. */
  function ImageMarks(refs: seq<string>, fetched: seq<Fetch>): seq<Mark>
    requires |refs| == |fetched|
  {
    seq(|refs|, i requires 0 <= i < |refs| =>
      if fetched[i] == Decoded then Pictured(refs[i]) else Said(ImageError))
  }

  function RowMarks(rows: seq<Feedback>): seq<Mark> {
    seq(|rows|, i requires 0 <= i < |rows| => Said(RowLine(rows[i])))
  }

  function HeaderMarks(r: Report): seq<Mark> {
    [Said(ReportHeading), Said(Department), Said(AcademicYear), Said(SubjectLine(r)),
     Said(FacultyLine(r)), Said(DateLine(r)), Said(Attendance(r.totalStudents))]
  }

  /** The document's content in reading order. */
  function ReportContent(r: Report, fetched: seq<Fetch>, lines: seq<string>): seq<Mark>
    requires |fetched| == |r.images|
  {
    HeaderMarks(r)
    + [Said(ObjectivesHeading)] + NumberedMarks(r.objectives)
    + (if r.images == [] then [Said(NoImages)]
       else [Said(SnapshotsHeading)] + ImageMarks(r.images, fetched))
    + [Said(OutcomesHeading), Wrapped(lines)]
    + [Said(FeedbackHeading)] + RowMarks(r.feedback)
  }

  // ---------------------------------------------------------------------------
  // The layout invariant.

  /** The y of the last element drawn on the current page, or the top margin
      right after a page break (0 on an empty document). */
  function Floor(ops: seq<Op>): int {
    if ops == [] then 0
    else if ops[|ops| - 1].PageBreak? then PageTop
    else ops[|ops| - 1].y
  }

  /** What an operation issued after `ops` must satisfy: an element goes on the
      page the document is on, no higher than the previous element on that page,
      and an image is 80 by 50 and ends above Bottom. */
  predicate Follows(ops: seq<Op>, op: Op) {
    op.PageBreak? ||
    (op.page == 1 + Breaks(ops) && op.y >= Floor(ops)
     && (op.Image? ==> op.width == ImageWidth && op.height == ImageHeight && op.y + op.height <= Bottom))
  }

  predicate Ordered(ops: seq<Op>)
    decreases |ops|
  {
    ops == [] || (Ordered(ops[..|ops| - 1]) && Follows(ops[..|ops| - 1], ops[|ops| - 1]))
  }

  /** The generator's state is consistent: the page counter is one more than the
      page breaks issued, the operations are in order, and the cursor is at or
      below the last element drawn on the current page. */
  predicate WellFormed(s: Layout) {
    s.page == 1 + Breaks(s.ops) && Ordered(s.ops) && Floor(s.ops) <= s.y
  }

  lemma BreaksAppend(ops: seq<Op>, op: Op)
    ensures Breaks(ops + [op]) == Breaks(ops) + (if op.PageBreak? then 1 else 0)
    ensures Marks(ops + [op]) == Marks(ops) + MarkOf(op)
    ensures Ordered(ops + [op]) <==> Ordered(ops) && Follows(ops, op)
  {
    assert (ops + [op])[..|ops|] == ops;
  }

  /** Each element carries the page it was drawn on, one more than the breaks
      before it; on the current page nothing lies below the floor. */
  lemma {:induction false} OrderedPages(ops: seq<Op>)
    requires Ordered(ops)
    ensures forall i | 0 <= i < |ops| && Drawn(ops[i]) ::
      ops[i].page == 1 + Breaks(ops[..i]) && ops[i].page <= 1 + Breaks(ops)
      && (ops[i].page == 1 + Breaks(ops) ==> ops[i].y <= Floor(ops))
    decreases |ops|
  {
    if ops != [] {
      var k := |ops| - 1;
      var pre, last := ops[..k], ops[k];
      OrderedPages(pre);
      assert ops == pre + [last];
      BreaksAppend(pre, last);
      forall i | 0 <= i < k
        ensures ops[i] == pre[i] && ops[..i] == pre[..i]
      {
      }
    }
  }

  /** Elements on one page go down the page in drawing order. */
  lemma {:induction false} OrderedDescends(ops: seq<Op>)
    requires Ordered(ops)
    ensures forall i, j | 0 <= i < j < |ops| && Drawn(ops[i]) && Drawn(ops[j]) && ops[i].page == ops[j].page ::
      ops[i].y <= ops[j].y
    decreases |ops|
  {
    if ops != [] {
      var k := |ops| - 1;
      var pre, last := ops[..k], ops[k];
      OrderedDescends(pre);
      OrderedPages(pre);
      assert ops == pre + [last];
      BreaksAppend(pre, last);
      forall i, j | 0 <= i < j < |ops| && Drawn(ops[i]) && Drawn(ops[j]) && ops[i].page == ops[j].page
        ensures ops[i].y <= ops[j].y
      {
        assert ops[i] == pre[i];
        if j < k {
          assert ops[j] == pre[j];
        }
      }
    }
  }

  /** Every image is 80 by 50 and ends above Bottom. */
  lemma {:induction false} OrderedImages(ops: seq<Op>)
    requires Ordered(ops)
    ensures forall i | 0 <= i < |ops| && ops[i].Image? ::
      ops[i].width == ImageWidth && ops[i].height == ImageHeight && ops[i].y + ImageHeight <= Bottom
    decreases |ops|
  {
    if ops != [] {
      var k := |ops| - 1;
      OrderedImages(ops[..k]);
      forall i | 0 <= i < k
        ensures ops[i] == ops[..k][i]
      {
      }
    }
  }

  /** Drawing on the current page at or below the cursor, then moving the cursor
      to or past it, keeps the state consistent. */
  lemma EmitKeeps(s: Layout, op: Op, dy: int)
    requires WellFormed(s)
    requires Drawn(op) && op.page == s.page && s.y <= op.y <= s.y + dy
    requires op.Image? ==> op.width == ImageWidth && op.height == ImageHeight && op.y + op.height <= Bottom
    ensures WellFormed(Down(Emit(s, op), dy))
    ensures Marks(Down(Emit(s, op), dy).ops) == Marks(s.ops) + MarkOf(op)
  {
    BreaksAppend(s.ops, op);
  }

  lemma NewPageKeeps(s: Layout)
    requires WellFormed(s)
    ensures WellFormed(NewPage(s)) && Marks(NewPage(s).ops) == Marks(s.ops)
  {
    BreaksAppend(s.ops, PageBreak);
  }

  /** The overflow check keeps the state consistent, adds nothing visible, never
      goes back a page, and leaves `need` units of room below the cursor whenever a
      fresh page has that much. */
  lemma MakeRoomKeeps(s: Layout, need: int)
    requires WellFormed(s)
    ensures var t := MakeRoom(s, need);
      WellFormed(t) && s.ops <= t.ops && Marks(t.ops) == Marks(s.ops)
      && t.page >= s.page && (t.page == s.page ==> t.y == s.y)
      && (need <= Bottom - PageTop ==> t.y + need <= Bottom)
  {
    if s.y + need > Bottom {
      NewPageKeeps(s);
    }
  }

  // ---------------------------------------------------------------------------
  // Section by section.

  /** The title lines keep the state consistent when they start below the cursor. */
  lemma TitleKeeps(s: Layout)
    requires WellFormed(s) && s.y <= 22
    ensures var t := PlaceTitle(s);
      WellFormed(t.(y := 42)) && t.page == s.page
      && t.ops == s.ops + [Text(s.page, 22, ReportHeading), Text(s.page, 30, Department),
                           Text(s.page, 36, AcademicYear)]
      && Marks(t.ops) == Marks(s.ops) + [Said(ReportHeading), Said(Department), Said(AcademicYear)]
  {
    var p := s.page;
    var u0 := Down(s, 22 - s.y);
    EmitKeeps(u0, Text(p, 22, ReportHeading), 8);
    var u1 := Down(Say(u0, 22, ReportHeading), 8);
    EmitKeeps(u1, Text(p, 30, Department), 6);
    var u2 := Down(Say(u1, 30, Department), 6);
    EmitKeeps(u2, Text(p, 36, AcademicYear), 6);
    var u3 := Down(Say(u2, 36, AcademicYear), 6);
    assert u3 == PlaceTitle(s).(y := 42);
    assert Marks(u3.ops) == Marks(s.ops) + [Said(ReportHeading)] + [Said(Department)] + [Said(AcademicYear)];
  }

  /** The metadata lines keep the state consistent when the cursor is at 42. */
  lemma MetadataKeeps(s: Layout, r: Report)
    requires WellFormed(s.(y := 42))
    ensures var t := PlaceMetadata(s, r);
      WellFormed(t.(y := 70)) && t.page == s.page
      && t.ops == s.ops + [Text(s.page, 42, SubjectLine(r)), Text(s.page, 48, FacultyLine(r)),
                           Text(s.page, 54, DateLine(r)), Text(s.page, 60, Attendance(r.totalStudents))]
      && Marks(t.ops) == Marks(s.ops) + [Said(SubjectLine(r)), Said(FacultyLine(r)),
                                         Said(DateLine(r)), Said(Attendance(r.totalStudents))]
  {
    var p := s.page;
    var u3 := s.(y := 42);
    EmitKeeps(u3, Text(p, 42, SubjectLine(r)), 6);
    var u4 := Down(Say(u3, 42, SubjectLine(r)), 6);
    EmitKeeps(u4, Text(p, 48, FacultyLine(r)), 6);
    var u5 := Down(Say(u4, 48, FacultyLine(r)), 6);
    EmitKeeps(u5, Text(p, 54, DateLine(r)), 6);
    var u6 := Down(Say(u5, 54, DateLine(r)), 6);
    EmitKeeps(u6, Text(p, 60, Attendance(r.totalStudents)), 10);
    var u7 := Down(Say(u6, 60, Attendance(r.totalStudents)), 10);
    assert u7 == PlaceMetadata(s, r).(y := 70);
    assert Marks(u7.ops) == Marks(s.ops) + [Said(SubjectLine(r))] + [Said(FacultyLine(r))]
      + [Said(DateLine(r))] + [Said(Attendance(r.totalStudents))];
  }

  /** The seven header lines at their fixed heights on page `p`. */
  function HeaderOps(p: nat, r: Report): seq<Op> {
    [Text(p, 22, ReportHeading), Text(p, 30, Department), Text(p, 36, AcademicYear),
     Text(p, 42, SubjectLine(r)), Text(p, 48, FacultyLine(r)), Text(p, 54, DateLine(r)),
     Text(p, 60, Attendance(r.totalStudents))]
  }

  /** The header keeps the state consistent when it starts above its first line. */
  lemma HeaderKeeps(s: Layout, r: Report)
    requires WellFormed(s) && s.y <= 22
    ensures WellFormed(PlaceHeader(s, r)) && PlaceHeader(s, r).y == 70
    ensures PlaceHeader(s, r).ops == s.ops + HeaderOps(s.page, r)
    ensures Marks(PlaceHeader(s, r).ops) == Marks(s.ops) + HeaderMarks(r)
  {
    TitleKeeps(s);
    MetadataKeeps(PlaceTitle(s), r);
    var title := [Said(ReportHeading), Said(Department), Said(AcademicYear)];
    var meta := [Said(SubjectLine(r)), Said(FacultyLine(r)), Said(DateLine(r)), Said(Attendance(r.totalStudents))];
    assert HeaderMarks(r) == title + meta;
  }

  /** Objective i is drawn on the current page 6·i below where the loop starts,
      numbered i + 1, in input order; the cursor ends 6·n lower, on the same page. */
  lemma {:induction false} ObjectiveLinesPlaced(s: Layout, objs: seq<string>)
    ensures var t := ObjectiveLines(s, objs);
      t.page == s.page && t.y == s.y + LineHeight * |objs|
      && |t.ops| == |s.ops| + |objs| && s.ops <= t.ops
      && (forall i | 0 <= i < |objs| ::
            t.ops[|s.ops| + i] == Text(s.page, s.y + LineHeight * i, Numbered(i + 1, objs[i])))
    decreases |objs|
  {
    if objs != [] {
      var k := |objs| - 1;
      ObjectiveLinesPlaced(s, objs[..k]);
      var u := ObjectiveLines(s, objs[..k]);
      var t := ObjectiveLines(s, objs);
      assert t.ops == u.ops + [Text(u.page, u.y, Numbered(k + 1, objs[k]))];
      forall i | 0 <= i < |objs|
        ensures t.ops[|s.ops| + i] == Text(s.page, s.y + LineHeight * i, Numbered(i + 1, objs[i]))
      {
        if i < k {
          assert t.ops[|s.ops| + i] == u.ops[|s.ops| + i];
          assert objs[..k][i] == objs[i];
        }
      }
    }
  }

  /** The objective lines keep the state consistent and show one numbered line per
      objective, in input order. */
  lemma {:induction false} ObjectiveLinesKeep(s: Layout, objs: seq<string>)
    requires WellFormed(s)
    ensures WellFormed(ObjectiveLines(s, objs))
    ensures Marks(ObjectiveLines(s, objs).ops) == Marks(s.ops) + NumberedMarks(objs)
    decreases |objs|
  {
    if objs != [] {
      var k := |objs| - 1;
      ObjectiveLinesKeep(s, objs[..k]);
      var u := ObjectiveLines(s, objs[..k]);
      assert ObjectiveLines(s, objs) == Down(Say(u, u.y, Numbered(k + 1, objs[k])), LineHeight);
      EmitKeeps(u, Text(u.page, u.y, Numbered(k + 1, objs[k])), LineHeight);
      NumberedMarksSnoc(objs);
    }
  }

  lemma NumberedMarksSnoc(objs: seq<string>)
    requires objs != []
    ensures var k := |objs| - 1;
      NumberedMarks(objs) == NumberedMarks(objs[..k]) + [Said(Numbered(k + 1, objs[k]))]
  {
    var k := |objs| - 1;
    var whole, front := NumberedMarks(objs), NumberedMarks(objs[..k]);
    forall i | 0 <= i < |objs|
      ensures whole[i] == (front + [Said(Numbered(k + 1, objs[k]))])[i]
    {
      if i < k {
        assert objs[..k][i] == objs[i];
      }
    }
  }

  /** Total cursor advance of the image loop when it needs no new page. */
  function ImageAdvances(fetched: seq<Fetch>): int
    decreases |fetched|
  {
    if fetched == [] then 0
    else
      var k := |fetched| - 1;
      ImageAdvances(fetched[..k]) + (if fetched[k] == Decoded then ImageAdvance else PlaceholderAdvance)
  }

  /** One pass of the image loop: a new page exactly when an image is attempted
      with fewer than 50 units left; the image or placeholder is drawn at the
      cursor, or at the top of the new page; then 60 down after a placed image,
      10 after a placeholder; a placed image always ends at or above Bottom. */
  lemma ImageStepKeeps(s: Layout, src: string, f: Fetch)
    requires WellFormed(s)
    ensures var t := ImageStep(s, src, f);
      var broke := f != FetchFailed && s.y + ImageHeight > Bottom;
      var top := if broke then PageTop else s.y;
      WellFormed(t) && s.ops <= t.ops
      && t.ops == s.ops + (if broke then [PageBreak] else [])
                  + [if f == Decoded then Image(t.page, top, ImageWidth, ImageHeight, src)
                     else Text(t.page, top, ImageError)]
      && t.page == (if broke then s.page + 1 else s.page)
      && t.y == (if broke then PageTop else s.y) + (if f == Decoded then ImageAdvance else PlaceholderAdvance)
      && Marks(t.ops) == Marks(s.ops) + [if f == Decoded then Pictured(src) else Said(ImageError)]
  {
    if f == FetchFailed {
      EmitKeeps(s, Text(s.page, s.y, ImageError), PlaceholderAdvance);
    } else {
      MakeRoomKeeps(s, ImageHeight);
      var m := MakeRoom(s, ImageHeight);
      if f == Decoded {
        EmitKeeps(m, Image(m.page, m.y, ImageWidth, ImageHeight, src), ImageAdvance);
      } else {
        EmitKeeps(m, Text(m.page, m.y, ImageError), PlaceholderAdvance);
      }
    }
  }

  /** The image loop keeps the layout consistent; pages only increase, and while
      no page is added the cursor moves by exactly 60 per image and 10 per
      placeholder. */
  lemma {:induction false} ImageStepsPlaced(s: Layout, refs: seq<string>, fetched: seq<Fetch>)
    requires |refs| == |fetched| && WellFormed(s)
    ensures var t := ImageSteps(s, refs, fetched);
      WellFormed(t) && s.ops <= t.ops
      && t.page >= s.page && (t.page == s.page ==> t.y == s.y + ImageAdvances(fetched))
    decreases |refs|
  {
    if refs != [] {
      var k := |refs| - 1;
      ImageStepsPlaced(s, refs[..k], fetched[..k]);
      var u := ImageSteps(s, refs[..k], fetched[..k]);
      assert ImageSteps(s, refs, fetched) == ImageStep(u, refs[k], fetched[k]);
      ImageStepKeeps(u, refs[k], fetched[k]);
    }
  }

  /** The image loop shows one image or placeholder per reference, in input
      order, none dropped. */
  lemma {:induction false} ImageStepsShown(s: Layout, refs: seq<string>, fetched: seq<Fetch>)
    requires |refs| == |fetched| && WellFormed(s)
    ensures Marks(ImageSteps(s, refs, fetched).ops) == Marks(s.ops) + ImageMarks(refs, fetched)
    decreases |refs|
  {
    if refs != [] {
      var k := |refs| - 1;
      ImageStepsPlaced(s, refs[..k], fetched[..k]);
      ImageStepsShown(s, refs[..k], fetched[..k]);
      var u := ImageSteps(s, refs[..k], fetched[..k]);
      var t := ImageStep(u, refs[k], fetched[k]);
      assert ImageSteps(s, refs, fetched) == t;
      ImageStepKeeps(u, refs[k], fetched[k]);
      ImageMarksSnoc(refs, fetched);
      assert Marks(t.ops) == Marks(s.ops) + ImageMarks(refs[..k], fetched[..k])
        + [if fetched[k] == Decoded then Pictured(refs[k]) else Said(ImageError)];
    }
  }

  lemma ImageMarksSnoc(refs: seq<string>, fetched: seq<Fetch>)
    requires |refs| == |fetched| > 0
    ensures var k := |refs| - 1;
      ImageMarks(refs, fetched) == ImageMarks(refs[..k], fetched[..k])
        + [if fetched[k] == Decoded then Pictured(refs[k]) else Said(ImageError)]
  {
    var k := |refs| - 1;
    var whole, front := ImageMarks(refs, fetched), ImageMarks(refs[..k], fetched[..k]);
    var last := [if fetched[k] == Decoded then Pictured(refs[k]) else Said(ImageError)];
    forall i | 0 <= i < |refs|
      ensures whole[i] == (front + last)[i]
    {
      if i < k {
        assert refs[..k][i] == refs[i] && fetched[..k][i] == fetched[i];
      }
    }
  }

  /** With no image references the section is the single line "No images
      uploaded." at the cursor, which then moves 10, on the same page. */
  lemma NoImagesPlaced(s: Layout)
    requires WellFormed(s)
    ensures var t := PlaceImages(s, [], []);
      WellFormed(t) && t.ops == s.ops + [Text(s.page, s.y, NoImages)]
      && t.y == s.y + PlaceholderAdvance && t.page == s.page
      && Marks(t.ops) == Marks(s.ops) + [Said(NoImages)]
  {
    EmitKeeps(s, Text(s.page, s.y, NoImages), PlaceholderAdvance);
  }

  /** Otherwise the cursor moves 10, the heading is drawn there, the cursor moves
      6, and the loop shows one image or placeholder per reference; without a new
      page the section ends 16 plus the loop's advances below where it began. */
  lemma SnapshotsPlaced(s: Layout, refs: seq<string>, fetched: seq<Fetch>)
    requires |refs| == |fetched| && refs != [] && WellFormed(s)
    ensures var t := PlaceImages(s, refs, fetched);
      WellFormed(t) && s.ops <= t.ops && |t.ops| > |s.ops|
      && t.ops[|s.ops|] == Text(s.page, s.y + 10, SnapshotsHeading)
      && t.page >= s.page && (t.page == s.page ==> t.y == s.y + 16 + ImageAdvances(fetched))
      && Marks(t.ops) == Marks(s.ops) + [Said(SnapshotsHeading)] + ImageMarks(refs, fetched)
  {
    var h := Down(s, 10);
    EmitKeeps(h, Text(h.page, h.y, SnapshotsHeading), LineHeight);
    var d := Down(Say(h, h.y, SnapshotsHeading), LineHeight);
    ImageStepsPlaced(d, refs, fetched);
    ImageStepsShown(d, refs, fetched);
    assert |d.ops| == |s.ops| + 1 && d.ops[|s.ops|] == Text(s.page, s.y + 10, SnapshotsHeading);
  }

  lemma PlaceImagesKeeps(s: Layout, refs: seq<string>, fetched: seq<Fetch>)
    requires |refs| == |fetched| && WellFormed(s)
    ensures var t := PlaceImages(s, refs, fetched);
      WellFormed(t) && Marks(t.ops) == Marks(s.ops) + (if refs == [] then [Said(NoImages)]
                                                        else [Said(SnapshotsHeading)] + ImageMarks(refs, fetched))
  {
    if refs == [] {
      NoImagesPlaced(s);
    } else {
      SnapshotsPlaced(s, refs, fetched);
    }
  }

  /** Learning outcomes: a new page exactly when fewer than 20 units remain; the
      heading, then all wrapped lines in one call, which are not page-checked; the
      cursor moves 6 for the heading and 6 per line. */
  lemma PlaceOutcomesPlaced(s: Layout, lines: seq<string>)
    requires WellFormed(s)
    ensures var t := PlaceOutcomes(s, lines);
      var broke := s.y + OutcomesRoom > Bottom;
      var top := if broke then PageTop else s.y;
      WellFormed(t)
      && t.page == (if broke then s.page + 1 else s.page)
      && t.ops == s.ops + (if broke then [PageBreak] else [])
                  + [Text(t.page, top, OutcomesHeading), Lines(t.page, top + LineHeight, lines)]
      && top + OutcomesRoom <= Bottom
      && t.y == top + LineHeight + LineHeight * |lines|
      && Marks(t.ops) == Marks(s.ops) + [Said(OutcomesHeading), Wrapped(lines)]
  {
    var m := MakeRoom(s, OutcomesRoom);
    var h := Down(Say(m, m.y, OutcomesHeading), LineHeight);
    var t := Down(Emit(h, Lines(h.page, h.y, lines)), LineHeight * |lines|);
    assert PlaceOutcomes(s, lines) == t;
    OutcomesKeep(s, lines);
    assert t.ops == m.ops + [Text(m.page, m.y, OutcomesHeading), Lines(m.page, m.y + LineHeight, lines)];
  }

  lemma OutcomesKeep(s: Layout, lines: seq<string>)
    requires WellFormed(s)
    ensures WellFormed(PlaceOutcomes(s, lines))
    ensures Marks(PlaceOutcomes(s, lines).ops) == Marks(s.ops) + [Said(OutcomesHeading), Wrapped(lines)]
  {
    MakeRoomKeeps(s, OutcomesRoom);
    var m := MakeRoom(s, OutcomesRoom);
    EmitKeeps(m, Text(m.page, m.y, OutcomesHeading), LineHeight);
    var h := Down(Say(m, m.y, OutcomesHeading), LineHeight);
    EmitKeeps(h, Lines(h.page, h.y, lines), LineHeight * |lines|);
    assert Marks(PlaceOutcomes(s, lines).ops) == Marks(s.ops) + [Said(OutcomesHeading)] + [Wrapped(lines)];
  }

  /** One feedback row: a new page exactly when fewer than 10 units remain, then
      the row, which therefore starts at 270 or above, and 6 down. */
  lemma FeedbackRowKeeps(s: Layout, fb: Feedback)
    requires WellFormed(s)
    ensures var t := FeedbackRow(s, fb);
      var broke := s.y + RowRoom > Bottom;
      var top := if broke then PageTop else s.y;
      WellFormed(t) && s.ops <= t.ops
      && t.ops == s.ops + (if broke then [PageBreak] else []) + [Text(t.page, top, RowLine(fb))]
      && top + RowRoom <= Bottom
      && t.page == (if broke then s.page + 1 else s.page) && t.y == top + LineHeight
      && Marks(t.ops) == Marks(s.ops) + [Said(RowLine(fb))]
  {
    MakeRoomKeeps(s, RowRoom);
    var m := MakeRoom(s, RowRoom);
    EmitKeeps(m, Text(m.page, m.y, RowLine(fb)), LineHeight);
  }

  /** The rows keep the state consistent, every row starts at 270 or above, pages
      only increase, and while no page is added the cursor moves 6 per row. */
  lemma {:induction false} FeedbackRowsKeep(s: Layout, rows: seq<Feedback>)
    requires WellFormed(s)
    ensures var t := FeedbackRows(s, rows);
      WellFormed(t) && s.ops <= t.ops
      && t.page >= s.page && (t.page == s.page ==> t.y == s.y + LineHeight * |rows|)
    decreases |rows|
  {
    if rows != [] {
      var k := |rows| - 1;
      FeedbackRowsKeep(s, rows[..k]);
      var u := FeedbackRows(s, rows[..k]);
      assert FeedbackRows(s, rows) == FeedbackRow(u, rows[k]);
      FeedbackRowKeeps(u, rows[k]);
    }
  }

  /** Every row line starts 10 or more above Bottom. */
  lemma {:induction false} FeedbackRowsFit(s: Layout, rows: seq<Feedback>)
    requires WellFormed(s)
    ensures var t := FeedbackRows(s, rows);
      |s.ops| <= |t.ops|
      && forall i | |s.ops| <= i < |t.ops| && t.ops[i].Text? :: t.ops[i].y + RowRoom <= Bottom
    decreases |rows|
  {
    if rows != [] {
      var k := |rows| - 1;
      FeedbackRowsKeep(s, rows[..k]);
      FeedbackRowsFit(s, rows[..k]);
      var u := FeedbackRows(s, rows[..k]);
      var t := FeedbackRows(s, rows);
      assert t == FeedbackRow(u, rows[k]);
      FeedbackRowKeeps(u, rows[k]);
      forall i | |s.ops| <= i < |t.ops| && t.ops[i].Text?
        ensures t.ops[i].y + RowRoom <= Bottom
      {
        if i < |u.ops| {
          assert t.ops[i] == u.ops[i];
        }
      }
    }
  }

  /** The rows show one "Roll No: … - …" line per feedback entry, in input order. */
  lemma {:induction false} FeedbackRowsShown(s: Layout, rows: seq<Feedback>)
    requires WellFormed(s)
    ensures WellFormed(FeedbackRows(s, rows))
    ensures Marks(FeedbackRows(s, rows).ops) == Marks(s.ops) + RowMarks(rows)
    decreases |rows|
  {
    if rows != [] {
      var k := |rows| - 1;
      FeedbackRowsShown(s, rows[..k]);
      FeedbackRowKeeps(FeedbackRows(s, rows[..k]), rows[k]);
      RowMarksSnoc(rows);
      assert Marks(FeedbackRows(s, rows).ops)
        == (Marks(s.ops) + RowMarks(rows[..k])) + [Said(RowLine(rows[k]))];
    }
  }

  lemma RowMarksSnoc(rows: seq<Feedback>)
    requires |rows| > 0
    ensures RowMarks(rows) == RowMarks(rows[..|rows| - 1]) + [Said(RowLine(rows[|rows| - 1]))]
  {
    var k := |rows| - 1;
    var whole, front := RowMarks(rows), RowMarks(rows[..k]);
    forall i | 0 <= i < |rows|
      ensures whole[i] == (front + [Said(RowLine(rows[k]))])[i]
    {
      if i < k {
        assert rows[..k][i] == rows[i];
      }
    }
  }

  /** The feedback section: the heading 10 below the cursor, the cursor 16
      lower, then the rows; without a new page it ends 16 plus 6 per row below
      where it began. */
  lemma PlaceFeedbackPlaced(s: Layout, rows: seq<Feedback>)
    requires WellFormed(s)
    ensures var t := PlaceFeedback(s, rows);
      WellFormed(t) && s.ops <= t.ops && |t.ops| > |s.ops|
      && t.ops[|s.ops|] == Text(s.page, s.y + 10, FeedbackHeading)
      && t.page >= s.page && (t.page == s.page ==> t.y == s.y + 16 + LineHeight * |rows|)
      && Marks(t.ops) == Marks(s.ops) + [Said(FeedbackHeading)] + RowMarks(rows)
  {
    EmitKeeps(s, Text(s.page, s.y + 10, FeedbackHeading), 16);
    var d := Down(Say(s, s.y + 10, FeedbackHeading), 16);
    FeedbackRowsKeep(d, rows);
    FeedbackRowsShown(d, rows);
    assert |d.ops| == |s.ops| + 1 && d.ops[|s.ops|] == Text(s.page, s.y + 10, FeedbackHeading);
  }

  // ---------------------------------------------------------------------------
  // The whole report.

  /** The header fills page 1 from 22 to 60; the objectives start at 70: the
      heading there, objective i at 76 + 6·i, and the cursor ends at 76 + 6·n. */
  lemma ReportObjectivesPlaced(r: Report)
    ensures var h := PlaceHeader(Start, r);
      var t := PlaceObjectives(h, r.objectives);
      var n := |r.objectives|;
      |h.ops| == 7 && h.y == 70 && h.page == 1
      && |t.ops| == 8 + n && h.ops <= t.ops
      && t.ops[7] == Text(1, 70, ObjectivesHeading)
      && (forall i | 0 <= i < n :: t.ops[8 + i] == Text(1, 76 + 6 * i, Numbered(i + 1, r.objectives[i])))
      && t.y == 76 + 6 * n && t.page == 1
  {
    var h := PlaceHeader(Start, r);
    var d := Down(Say(h, h.y, ObjectivesHeading), LineHeight);
    ObjectiveLinesPlaced(d, r.objectives);
  }

  /** The objectives are never page-checked: from the 36th objective on, the
      lines are drawn on page 1 below Bottom, and no page break precedes them. */
  lemma ObjectivesNotPaged(r: Report)
    requires |r.objectives| >= 36
    ensures var t := PlaceObjectives(PlaceHeader(Start, r), r.objectives);
      |t.ops| == 8 + |r.objectives| && Breaks(t.ops) == 0
      && t.ops[43] == Text(1, 286, Numbered(36, r.objectives[35]))
      && t.ops[43].y > Bottom
  {
    ReportObjectivesPlaced(r);
    HeaderKeeps(Start, r);
    var h := PlaceHeader(Start, r);
    EmitKeeps(h, Text(h.page, h.y, ObjectivesHeading), LineHeight);
    ObjectiveLinesKeep(Down(Say(h, h.y, ObjectivesHeading), LineHeight), r.objectives);
  }

  /** Every section keeps the generator's state consistent. */
  lemma ReportConsistent(r: Report, fetched: seq<Fetch>, lines: seq<string>)
    requires |fetched| == |r.images|
    ensures WellFormed(ReportLayout(r, fetched, lines))
  {
    var h := PlaceHeader(Start, r);
    HeaderKeeps(Start, r);
    EmitKeeps(h, Text(h.page, h.y, ObjectivesHeading), LineHeight);
    ObjectiveLinesKeep(Down(Say(h, h.y, ObjectivesHeading), LineHeight), r.objectives);
    var o := PlaceObjectives(h, r.objectives);
    PlaceImagesKeeps(o, r.images, fetched);
    var im := PlaceImages(o, r.images, fetched);
    PlaceOutcomesPlaced(im, lines);
    var l := PlaceOutcomes(im, lines);
    PlaceFeedbackPlaced(l, r.feedback);
    assert ReportLayout(r, fetched, lines) == PlaceFeedback(l, r.feedback);
  }

  /** The generated document's page count is one more than its page breaks,
      every element carries the page it is on, elements on one page go down the
      page in drawing order, and every image is 80 by 50 and ends above Bottom. */
  lemma ReportWellFormed(r: Report, fetched: seq<Fetch>, lines: seq<string>)
    requires |fetched| == |r.images|
    ensures var t := ReportLayout(r, fetched, lines);
      t.page == 1 + Breaks(t.ops)
      && (forall i | 0 <= i < |t.ops| && Drawn(t.ops[i]) :: t.ops[i].page == 1 + Breaks(t.ops[..i]))
      && (forall i, j | 0 <= i < j < |t.ops| && Drawn(t.ops[i]) && Drawn(t.ops[j])
            && t.ops[i].page == t.ops[j].page :: t.ops[i].y <= t.ops[j].y)
      && (forall i | 0 <= i < |t.ops| && t.ops[i].Image? ::
            t.ops[i].width == ImageWidth && t.ops[i].height == ImageHeight && t.ops[i].y + ImageHeight <= Bottom)
  {
    ReportConsistent(r, fetched, lines);
    var ops := ReportLayout(r, fetched, lines).ops;
    OrderedPages(ops);
    OrderedDescends(ops);
    OrderedImages(ops);
  }

  /** The document shows exactly the report's content, in order: header lines,
      numbered objectives, the images section with one image or placeholder per
      reference, the learning outcomes, and one line per feedback row. */
  lemma {:induction false} ReportShowsContent(r: Report, fetched: seq<Fetch>, lines: seq<string>)
    requires |fetched| == |r.images|
    ensures Marks(ReportLayout(r, fetched, lines).ops) == ReportContent(r, fetched, lines)
  {
    var h := PlaceHeader(Start, r);
    HeaderKeeps(Start, r);
    assert Marks(h.ops) == HeaderMarks(r);
    var d := Down(Say(h, h.y, ObjectivesHeading), LineHeight);
    EmitKeeps(h, Text(h.page, h.y, ObjectivesHeading), LineHeight);
    ObjectiveLinesKeep(d, r.objectives);
    var o := PlaceObjectives(h, r.objectives);
    assert Marks(o.ops) == HeaderMarks(r) + [Said(ObjectivesHeading)] + NumberedMarks(r.objectives);
    PlaceImagesKeeps(o, r.images, fetched);
    var im := PlaceImages(o, r.images, fetched);
    PlaceOutcomesPlaced(im, lines);
    var l := PlaceOutcomes(im, lines);
    PlaceFeedbackPlaced(l, r.feedback);
    assert ReportLayout(r, fetched, lines) == PlaceFeedback(l, r.feedback);
  }
}
