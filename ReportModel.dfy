/** The report record both generators read, the outcome of fetching one image,
    and the lines the two documents share word for word. */
module ReportModel {
  import Decimal

  /** The JavaScript value held in participationData.totalStudents: the number 0
      the form starts with, or the string the number input stores once edited. */
  datatype Count = Num(n: int) | Entry(s: string)

  datatype Feedback = Feedback(rollNo: string, expectation: string)

  /** The fields of the submitted form that the generators read. */
  datatype Report = Report(
    title: string,
    subjectName: string,
    facultyName: string,
    date: string,
    totalStudents: Count,
    objectives: seq<string>,
    learningOutcomes: string,
    feedback: seq<Feedback>,
    images: seq<string>)

  /** What fetching one image reference yields: the request or the body read
      (`response.blob()`) rejected; bytes arrived that are not an image the PDF
      library can embed (an HTTP error page, say: fetch does not reject on those);
      or an embeddable image. */
  datatype Fetch = FetchFailed | NotAnImage | Decoded

  const Department := "Department: Information Technology"
  const AttendancePrefix := "No. of Students Attended: "
  const NotAvailable := "N/A"
  const ObjectivesHeading := "Objectives:"
  const SnapshotsHeading := "Snapshots:"
  const OutcomesHeading := "Learning Outcomes:"
  const FeedbackHeading := "Student Feedback Analysis:"
  const ImageError := "Error loading image."

  /** JavaScript truthiness of the count: 0 and "" are falsy, "0" is not. */
  predicate Truthy(c: Count) {
    match c
    case Num(n) => n != 0
    case Entry(s) => s != ""
  }

  /** The count as a template literal interpolates it. */
  function Shown(c: Count): string {
    match c
    case Num(n) => Decimal.IntToString(n)
    case Entry(s) => s
  }

  function SubjectLine(r: Report): string {
    "Subject: " + r.subjectName
  }

  function FacultyLine(r: Report): string {
    "Faculty: " + r.facultyName
  }

  function DateLine(r: Report): string {
    "Date: " + r.date
  }

  /** `No. of Students Attended: ${totalStudents || "N/A"}` */
  function Attendance(c: Count): string {
    AttendancePrefix + (if Truthy(c) then Shown(c) else NotAvailable)
  }

  /** The attendance line carries the count when it is truthy and "N/A" otherwise;
      an empty entry and the number 0 read "N/A", the entry "0" reads "0". */
  lemma AttendanceReadsCount(c: Count)
    ensures Attendance(c)[..|AttendancePrefix|] == AttendancePrefix
    ensures Attendance(c)[|AttendancePrefix|..] == if Truthy(c) then Shown(c) else NotAvailable
    ensures Attendance(Entry("")) == AttendancePrefix + NotAvailable
    ensures Attendance(Num(0)) == AttendancePrefix + NotAvailable
    ensures Attendance(Entry("0")) == AttendancePrefix + "0"
  {
  }

  /** A non-zero number is spelled out in decimal, never as "N/A". */
  lemma AttendanceShowsNumber(n: int)
    requires n != 0
    ensures Attendance(Num(n)) == AttendancePrefix + Decimal.IntToString(n)
    ensures Attendance(Num(n)) != AttendancePrefix + NotAvailable
  {
    Decimal.IntToStringSign(n);
    var s := Decimal.IntToString(n);
    if n > 0 {
      Decimal.NatToStringReadsBack(n);
    }
    assert s[0] != NotAvailable[0];
    assert (AttendancePrefix + s)[|AttendancePrefix|..] == s;
  }
}
