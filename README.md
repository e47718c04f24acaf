# Teaching activity report: document generation

This project models the two export functions of the report form in
`frontend/src/components/ReportForm.jsx`:

- `generatePDFReport` lays the report out on fixed A4 pages. A cursor `yPos`
  moves down the page. There are overflow checks against a bottom margin of
  280 before images, before the learning outcomes and before each feedback row.
  A new page resets the cursor to 20.
- `generateWordReport` builds one section of paragraphs and images, which the
  word processor flows by itself.

Both name the downloaded file after the report title. Every run of whitespace
in the title becomes one underscore, then `.pdf` or `.docx` is appended.

The model has seven modules:

- `Decimal` shows how a template literal spells an integer.
- `FileNames` models the title rewrite `replace(/\s+/g, "_")`. Whitespace is
  the full JavaScript `\s` class. A second, character-at-a-time reading is
  proved equal to it.
- `ReportModel` holds the form record and the lines both documents share. It
  includes the attendance line with its `|| "N/A"` fallback. That fallback
  uses JavaScript truthiness: the number 0 and the empty entry read "N/A", the
  entry "0" does not.
- `PdfLayout` is the PDF generator as functions over a layout state. The state
  is the cursor, the page counter and the drawing operations issued so far.
  - There is one function per section.
  - A consistency invariant holds throughout:
    - the page counter is one more than the page breaks issued;
    - on a page, elements are drawn top to bottom;
    - every image is 80 by 50 and ends at or above 280.
  - A reference reading lists what the document shows, in order.
- `PdfGenerator` is the generator as it is written: step by step. A `PdfDoc`
  object's cursor, page and operation list are updated in place by loops.
  Each method is proved to produce what the matching `PdfLayout` function
  describes.
- `WordReport` models the Word document's list of section children. It is read
  back through its outline (the headings) and its pictures.
- `Formats` compares the two documents made from one form.

Each document fetches every image reference itself: the Word generator
through `convertImageToBase64`, the PDF generator through `getBase64Image`.
Each fetch has one of three outcomes, passed in as an input, one sequence per
document:

- **The request or the body read rejects.** The PDF prints "Error loading
  image." with no overflow check. The Word document has the same error
  paragraph.
- **The bytes arrive but are not an image.** This happens with an HTTP error
  page, because `fetch` does not reject on those. The PDF makes its overflow
  check, then prints the placeholder, on the assumption that `addImage` throws
  (see "Left out"). The Word document embeds the bytes as a picture.
- **An image arrives.** Both documents place it.

Some of the code's behaviour is worth knowing, and the model follows the code
in each case:

- The objectives are never page-checked. `ObjectivesNotPaged` shows that the
  36th objective is drawn on page 1 at 286, below the bottom margin.
- The wrapped learning-outcome lines are issued in one call after one overflow
  check. No page break ever happens inside them.
- A feedback row needs 10 units of room, not one line height.
- The Word document lists the objectives without numbers.
- The Word document never lists the feedback rows.

## Model

| member | source | states |
|---|---|---|
| Decimal.NatToStringReadsBack | frontend/src/components/ReportForm.jsx:138 | A count's decimal spelling is non-empty, all digits, reads back as the count, and has no leading zero unless the count is 0 |
| Decimal.IntToStringSign | frontend/src/components/ReportForm.jsx:138 | A negative count is spelled with a minus sign followed by its magnitude; a non-negative one has no sign |
| FileNames.SkipWhitespace | frontend/src/components/ReportForm.jsx:207 | What the greedy `\s+` leaves: a suffix of the input, not starting with whitespace, everything skipped being whitespace |
| FileNames.RewriteIsSqueeze | frontend/src/components/ReportForm.jsx:207 | The global replacement equals the character-by-character reading: a whitespace character becomes "_" when it starts a run and disappears inside one; other characters are kept in order |
| FileNames.SkipThenRewrite | frontend/src/components/ReportForm.jsx:207 | Rewriting after a skipped run equals reading on inside a run (the mutual half of the previous row) |
| FileNames.RewriteLeavesNoWhitespace | frontend/src/components/ReportForm.jsx:207 | No whitespace survives in the file stem, and the stem is never longer than the title |
| FileNames.RewriteKeepsPlainTitle | frontend/src/components/ReportForm.jsx:207 | A title without whitespace is its own stem |
| FileNames.RewriteIdempotent | frontend/src/components/ReportForm.jsx:207 | Rewriting a stem again changes nothing |
| FileNames.FileNameShape | frontend/src/components/ReportForm.jsx:207 | The file name is the whitespace-free stem, a dot and the extension, with the stated length |
| FileNames.RewriteCopiesPlainPrefix | frontend/src/components/ReportForm.jsx:207 | A whitespace-free prefix of the title is copied unchanged |
| FileNames.SpaceBetweenWords | frontend/src/components/ReportForm.jsx:207 | One space between two words becomes one underscore |
| FileNames.ThreeWordTitle | frontend/src/components/ReportForm.jsx:100 | A title of three words separated by single spaces ("Intro to OS") gives the stem with underscores between the words |
| ReportModel.AttendanceReadsCount | frontend/src/components/ReportForm.jsx:81 | The attendance line is the prefix followed by the count when it is truthy and by "N/A" otherwise; the number 0 and an empty entry give "N/A", the entry "0" gives "0" |
| ReportModel.AttendanceShowsNumber | frontend/src/components/ReportForm.jsx:138 | A non-zero number is shown in decimal and never as "N/A" |
| PdfLayout.OrderedPages | frontend/src/components/ReportForm.jsx:126-208 | In a consistent document every element carries the page it was drawn on, one more than the page breaks before it |
| PdfLayout.OrderedDescends | frontend/src/components/ReportForm.jsx:126-208 | Elements on the same page go down the page in drawing order |
| PdfLayout.OrderedImages | frontend/src/components/ReportForm.jsx:166 | Every image in a consistent document is 80 by 50 and its bottom edge is at or above 280 |
| PdfLayout.EmitKeeps | frontend/src/components/ReportForm.jsx:130 | Drawing on the current page at or below the cursor, then moving the cursor past it, keeps the document consistent and adds exactly that element to what is shown |
| PdfLayout.NewPageKeeps | frontend/src/components/ReportForm.jsx:162-163 | A new page keeps the document consistent and shows nothing |
| PdfLayout.MakeRoomKeeps | frontend/src/components/ReportForm.jsx:180-183 | The overflow check keeps the document consistent, adds nothing visible, stays on the page when there is room, and otherwise leaves the requested room below the cursor |
| PdfLayout.TitleKeeps | frontend/src/components/ReportForm.jsx:129-134 | Exactly the title, department and academic-year lines are added, on the current page at 22, 30 and 36; they keep the document consistent and show those three lines |
| PdfLayout.MetadataKeeps | frontend/src/components/ReportForm.jsx:135-138 | Exactly the subject, faculty, date and attendance lines are added, on the current page at 42, 48, 54 and 60; they keep the document consistent and show those four lines |
| PdfLayout.HeaderKeeps | frontend/src/components/ReportForm.jsx:129-140 | The header adds exactly the seven header lines at 22 to 60 and sets the cursor to 70; it keeps the document consistent and shows those lines in order |
| PdfLayout.ObjectiveLinesPlaced | frontend/src/components/ReportForm.jsx:145-148 | Objective i is drawn on the current page 6·i below where the loop starts, as "i+1. objective", and the cursor ends 6·n lower on the same page |
| PdfLayout.ObjectiveLinesKeep | frontend/src/components/ReportForm.jsx:145-148 | The objectives loop keeps the document consistent and shows one numbered line per objective, in input order |
| PdfLayout.ImageStepKeeps | frontend/src/components/ReportForm.jsx:157-172 | One image: a new page exactly when the fetch delivered and fewer than 50 units remain; the image or placeholder is drawn at the cursor, or at 20 after the new page; then 60 down after a placed image and 10 after a placeholder; the image or placeholder is shown |
| PdfLayout.ImageStepsPlaced | frontend/src/components/ReportForm.jsx:156-173 | The image loop keeps the document consistent, never goes back a page, and without a new page moves the cursor 60 per image and 10 per placeholder |
| PdfLayout.ImageStepsShown | frontend/src/components/ReportForm.jsx:156-173 | The image loop shows one image or placeholder per reference, in input order, none dropped |
| PdfLayout.NoImagesPlaced | frontend/src/components/ReportForm.jsx:174-177 | Without images the section is the single "No images uploaded." line at the cursor, which then moves 10 |
| PdfLayout.SnapshotsPlaced | frontend/src/components/ReportForm.jsx:151-173 | With images the heading is drawn 10 below the cursor, then the image loop's images and placeholders follow; without a new page the cursor ends 16 plus 60 per image and 10 per placeholder lower |
| PdfLayout.PlaceImagesKeeps | frontend/src/components/ReportForm.jsx:151-177 | The images section keeps the document consistent and shows either the "no images" line or the heading and one item per reference |
| PdfLayout.PlaceOutcomesPlaced | frontend/src/components/ReportForm.jsx:180-191 | Learning outcomes: a new page exactly when fewer than 20 units remain; then the heading and all wrapped lines in one call; the cursor moves 6 plus 6 per line |
| PdfLayout.OutcomesKeep | frontend/src/components/ReportForm.jsx:180-191 | The outcomes section keeps the document consistent and shows the heading and the wrapped block |
| PdfLayout.FeedbackRowKeeps | frontend/src/components/ReportForm.jsx:197-202 | One feedback row: a new page exactly when fewer than 10 units remain, then the row line, which starts at 270 or above, and 6 down |
| PdfLayout.FeedbackRowsKeep | frontend/src/components/ReportForm.jsx:196-203 | The rows keep the document consistent, never go back a page, and without a new page move the cursor 6 per row |
| PdfLayout.FeedbackRowsFit | frontend/src/components/ReportForm.jsx:196-203 | Every feedback row line starts 10 or more units above the bottom margin |
| PdfLayout.FeedbackRowsShown | frontend/src/components/ReportForm.jsx:201 | The rows show one "Roll No: … - …" line per feedback entry, in input order |
| PdfLayout.PlaceFeedbackPlaced | frontend/src/components/ReportForm.jsx:193-203 | The feedback heading is drawn 10 below the cursor with no overflow check, the cursor moves 16, then the rows; without a new page the cursor ends 16 plus 6 per row lower |
| PdfLayout.ReportObjectivesPlaced | frontend/src/components/ReportForm.jsx:140-148 | The header fills page 1; the objectives heading is at 70, objective i at 76 + 6·i, and the cursor ends at 76 + 6·n, still on page 1 |
| PdfLayout.ObjectivesNotPaged | frontend/src/components/ReportForm.jsx:145-148 | With 36 objectives or more, the 36th is drawn on page 1 at 286, below the bottom margin, and no page break precedes it |
| PdfLayout.ReportConsistent | frontend/src/components/ReportForm.jsx:126-208 | Every section keeps the generator's state consistent, so the whole report is |
| PdfLayout.ReportWellFormed | frontend/src/components/ReportForm.jsx:126-208 | The report's page count is one more than its page breaks, each element is on the page it was drawn on, elements on a page go down it in order, and no image ends below 280 |
| PdfLayout.ReportShowsContent | frontend/src/components/ReportForm.jsx:126-208 | The report shows exactly its content in reading order: header, numbered objectives, the images part, the outcomes, the feedback heading and the rows |
| PdfGenerator.PdfDoc.constructor | frontend/src/components/ReportForm.jsx:127 | A new document has one page and nothing drawn |
| PdfGenerator.PdfDoc.DrawText | frontend/src/components/ReportForm.jsx:130 | A line is added on the current page at the given height; nothing else changes |
| PdfGenerator.PdfDoc.TextLines | frontend/src/components/ReportForm.jsx:190 | The wrapped lines are added as one block at the cursor |
| PdfGenerator.PdfDoc.AddImage | frontend/src/components/ReportForm.jsx:166 | An 80 by 50 image is added at the cursor |
| PdfGenerator.PdfDoc.AddPage | frontend/src/components/ReportForm.jsx:162-163 | A page break is added, the page counter grows by one and the cursor is reset to 20 |
| PdfGenerator.PdfDoc.WriteHeader | frontend/src/components/ReportForm.jsx:129-140 | The document's new state is the header layout of the old one |
| PdfGenerator.PdfDoc.WriteObjectives | frontend/src/components/ReportForm.jsx:143-148 | The loop leaves the document in the objectives layout of its old state |
| PdfGenerator.PdfDoc.WriteImages | frontend/src/components/ReportForm.jsx:151-177 | The loop, with its overflow check inside the try block, leaves the document in the images layout of its old state |
| PdfGenerator.PdfDoc.WriteOutcomes | frontend/src/components/ReportForm.jsx:180-191 | The document's new state is the outcomes layout of the old one |
| PdfGenerator.PdfDoc.WriteFeedback | frontend/src/components/ReportForm.jsx:193-203 | The loop leaves the document in the feedback layout of its old state |
| PdfGenerator.GeneratePdfReport | frontend/src/components/ReportForm.jsx:126-208 | The saved document is the report's layout, named after the title with ".pdf"; its page count is one more than its page breaks, it shows exactly the report's content, and every image ends at or above 280 |
| WordReport.ImageBlocksRead | frontend/src/components/ReportForm.jsx:56-69 | The image part has no heading, and its pictures are exactly the delivered references, in input order |
| WordReport.DeliveredCount | frontend/src/components/ReportForm.jsx:56-69 | The delivered references and the rejected fetches together number exactly the references: each becomes a picture or an error paragraph, none is dropped |
| WordReport.FrontHeadings | frontend/src/components/ReportForm.jsx:76-88 | Before the images the outline is the objectives heading then the snapshots heading |
| WordReport.FrontPictures | frontend/src/components/ReportForm.jsx:76-88 | There is no picture before the images |
| WordReport.TailRead | frontend/src/components/ReportForm.jsx:91-93 | After the images come exactly the outcomes and feedback headings, and no picture |
| WordReport.WordOutline | frontend/src/components/ReportForm.jsx:71-97 | The document's outline is always Objectives, Snapshots, Learning Outcomes, Student Feedback Analysis, even when there are no objectives or images |
| WordReport.WordPictures | frontend/src/components/ReportForm.jsx:56-89 | The document's pictures are exactly the delivered image references, in input order |
| WordReport.WordFrontPositions | frontend/src/components/ReportForm.jsx:76-86 | Title, bold department, the metadata paragraphs, an empty paragraph, the objectives heading, one unnumbered paragraph per objective, then an empty paragraph |
| WordReport.WordImagePositions | frontend/src/components/ReportForm.jsx:88-93 | The snapshots heading, one picture or error paragraph per reference in order, then the outcomes heading, the outcomes paragraph and the feedback heading, which is last |
| WordReport.WordOmitsFeedback | frontend/src/components/ReportForm.jsx:93 | The feedback rows have no bearing on the Word document |
| WordReport.GenerateWordReport | frontend/src/components/ReportForm.jsx:55-101 | The saved document is named after the title with ".docx"; its outline is the four headings and its pictures are the delivered references |
| Formats.PdfFrontPositions | frontend/src/components/ReportForm.jsx:130-148 | In the PDF's content the seven header lines come first, then the objectives heading and the numbered objectives |
| Formats.PdfImagePositions | frontend/src/components/ReportForm.jsx:151-177 | After the objectives the PDF shows "No images uploaded.", or the snapshots heading and one image or placeholder per reference |
| Formats.PdfTailPositions | frontend/src/components/ReportForm.jsx:185-203 | The PDF ends with the outcomes heading, the wrapped block, the feedback heading and one line per row |
| Formats.SameMetadata | frontend/src/components/ReportForm.jsx:135-138 | The subject, faculty, date and attendance lines are word for word the same in both documents (Word lines 78-81) |
| Formats.ObjectivesAgree | frontend/src/components/ReportForm.jsx:146 | The objectives are in the same order in both documents; the PDF line is the Word paragraph numbered from 1 (Word line 85) |
| Formats.ImagesAgree | frontend/src/components/ReportForm.jsx:157-172 | One slot per reference in both documents, in order, each fetched separately (Word lines 56-69): a Word slot is a picture exactly when its fetch delivered, a PDF slot exactly when its fetch delivered an image. Where both fetches of a reference agree, a rejected fetch is a placeholder in both, a PDF image is a Word picture of the same reference, and they differ exactly when the bytes are not an image |
| Formats.NoImagesDiffer | frontend/src/components/ReportForm.jsx:174-177 | Without images the PDF prints "No images uploaded." where Word keeps an empty snapshots section (Word line 88) |
| Formats.FeedbackOnlyInPdf | frontend/src/components/ReportForm.jsx:196-203 | The PDF ends with one line per feedback row; the Word document ends at the feedback heading whatever the rows |
| Formats.SameStem | frontend/src/components/ReportForm.jsx:207 | Both files share the stem and differ only in the extension (Word line 100) |

## Left out

- The React component, its form-state handlers, `handleSubmit`, the image
  upload to the hosting service and the backend routes are not part of this
  model.
- The network is not modelled. Fetching an image is an input: one outcome per
  reference and document.
- A `FileReader` that fails is not modelled. Neither reader can reject: each
  promise only ever resolves. The PDF reader then resolves with `null`, which
  goes to `addImage`. The Word reader calls `split` on `null`, which throws
  inside the handler, so that promise never settles. `handleSubmit` awaits the
  Word export, so then neither document is produced.
- Formats.ImagesAgree: the two documents fetch each reference separately, so
  their outcomes may differ. Agreement of a slot is promised only where the
  two outcomes for that reference are equal.
- PdfLayout.ImageStep: bytes that are not an image are assumed to make
  `addImage` throw, so the placeholder is printed after the overflow check. The
  call names the "JPEG" format explicitly, and the PDF library might instead
  embed such bytes. If it does, these become images, and Formats.ImagesAgree's
  "differ exactly when the bytes are not an image" no longer holds.
- `Promise.all` over the image references is modelled as an ordered map.
  Concurrency is not modelled; the result order is the input order either way.
- `splitTextToSize(text, 180)` depends on font metrics. The wrapped lines are
  an input of the PDF model.
- The PDF library's own behaviour is not modelled:
  - font sizes 18 and 12 and the x position 14 are not recorded;
  - the spacing it uses between the wrapped lines of one `text` call is not
    recorded: the block is one operation at the cursor;
  - an image operation records its reference, not the image data or the
    "JPEG" format.
- The unused `yPos2` is not modelled.
- The cursor before `let yPos = 70` is not read by the generator; the model
  starts it at 0.
- Word styles are not modelled beyond a block's kind. "Title", "Heading1" and
  the bold flag are not interpreted. How the word processor treats an image
  run placed directly in a section is not modelled.
- The Word image-run constructor is assumed not to throw. A fetch that
  delivers non-image bytes therefore becomes a picture.
- `Packer.toBlob` and `saveAs` are not modelled. Each generator returns the
  file as a value: name and content.
- `totalStudents` covers the number 0 the form starts with, other integers,
  and the string the number input stores. Fractional numbers and NaN are not
  modelled.
- The cursor arithmetic is unbounded integers. JavaScript numbers are doubles,
  but these values are small integers, so they are exact either way.
