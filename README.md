# Teacher grade book and parent mail: a Dafny model

This project models the logic under the UI of a small teacher app. The app keeps a roster of
students and the grades recorded for them. It also builds parent mails from a class/semester
report that a server returns.

The model covers four parts:

- **The in-memory domain store** (`App`, `app.dfy`). `AppState` holds the selected page and the two
  collections. Its three mutations are `AddStudent`, `DeleteStudent` (which also removes that
  student's grades) and `AddGrade`. `Valid()` states the invariant: student ids are distinct, grade
  ids are distinct, and every grade names a student on the roster. The page dispatch and the wiring
  of the two forms to the store are in the same module.
- **The grade-entry page** (`GradesView`). It models the form state and its submit guard, the
  lookup of a student's name with its `Unbekannt` fallback, the newest-first table and the
  three-way colour band.
- **The roster page** (`StudentsView`). It models the form with its all-fields-required guard and
  reset, and the roster table whose row k deletes student k.
- **The mail generator** (`MailGenerator`, with `Json` for parsed payloads). It models the
  class-list decoder with its field-fallback order, the noten decoder, the generate action with
  its selection guard, and the in-place loop that turns noten lines into the mail body.

`Common` holds `Filter` (JavaScript's `Array.prototype.filter`), `Join` and `Split` (the partner
of `join`), and their lemmas. `Types` holds the records of `types.ts`.

Generated ids (`crypto.randomUUID()`) are passed in by the caller. Freshness is only a hypothesis
of the clauses that say the invariant is kept. The store itself does not demand it, and neither
does the source.

A few behaviours of the code are easy to misread; the model follows the code:

- A bare empty string in the class list becomes the entry `{id: "", name: ""}`. Only object items
  are dropped when their id or name is empty.
- The object fallback takes the first field that holds a string, even an empty one. So
  `{id: "", value: "x", name: "n"}` is dropped and does not fall back to `value`.
- The mail subject uses the item's raw `vorname`/`nachname`. A missing one reads `undefined`,
  although the card display shows empty text in that case.
- The grade store does not check the student reference. Integrity holds only because the form
  offers roster ids alone (`App.SubmitGrade` keeps `Valid()` under that hypothesis).
- The mail subject names the semester selected when the mail button is clicked
  (components/MailGeneratorView.tsx:135), not the one the mails were requested for (:104-107).
  Changing the semester after generating gives subjects that name the new semester over the old
  grades; `OpenMail` therefore takes the semester as a parameter of the click.

## Model

| member | source | states |
|---|---|---|
| `App.AppState.constructor` | App.tsx:10-18 | starts on the grade-entry page with the collections read back from storage |
| `App.AppState.Navigate` | App.tsx:67 | selecting a page makes it the single current page |
| `App.AppState.AddStudent` | App.tsx:28-31 | the roster becomes the old roster plus one student with exactly the draft's names, email and the given id, appended last; grades and page unchanged; a fresh id keeps `Valid()` |
| `App.AddFreshStudentKeepsIdsUnique` | App.tsx:29 | appending under an id not yet in use keeps student ids pairwise distinct |
| `App.AppState.DeleteStudent` | App.tsx:33-36 | roster and grades become their filtered versions; afterwards no student has the id and no grade refers to it; `Valid()` is kept |
| `App.NewStudent` | App.tsx:29 | the stored student carries exactly the draft's names and email under the new id |
| `App.NewGrade` | App.tsx:39 | the stored grade carries exactly the draft's student, subject, grade, comment and date under the new id |
| `App.RemainingStudents` | App.tsx:34 | a student survives the delete iff it was on the roster and has another id; the deleted id is gone |
| `App.RemainingGrades` | App.tsx:35 | a grade survives the cascade iff it was stored and belongs to another student |
| `App.RemainingStudentsAppend` | App.tsx:34 | deleting distributes over concatenation, so the survivors keep their stored order |
| `App.RemainingGradesAppend` | App.tsx:35 | the cascade distributes over concatenation, so the surviving grades keep their stored order |
| `App.DeleteAbsentIsNoOp` | App.tsx:33-36 | deleting an id no student has leaves the roster unchanged, and under integrity the grades too |
| `App.KeepsAllOtherIds` | App.tsx:34 | a roster without the id survives the delete unchanged |
| `App.DeleteRemovesOnlyThatStudent` | App.tsx:34 | with unique ids, deleting student k's id yields the roster without position k and nothing else |
| `App.DeleteKeepsIntegrity` | App.tsx:33-36 | if every grade named a student before the delete, every remaining grade names a remaining student |
| `App.DeleteKeepsIdsUnique` | App.tsx:33-36 | deleting keeps student ids and grade ids pairwise distinct |
| `App.AppState.AddGrade` | App.tsx:38-41 | the grade list becomes the old list plus one grade with the draft's fields and the given id; existing grades untouched; roster unchanged |
| `App.AddGradeKeepsInvariants` | App.tsx:38-41 | a fresh grade id for a student on the roster keeps grade ids distinct and integrity intact |
| `App.RenderContent` | App.tsx:43-54 | each of the three pages renders its own view, and no view is shared |
| `App.PageTitle` | App.tsx:56-63 | every page has a non-empty fixed title |
| `App.PageTitlesDistinct` | App.tsx:56-63 | distinct pages have distinct titles |
| `App.SubmitGrade` | App.tsx:46 | the grade form's submit adds nothing and keeps the comment without a selected student, else appends exactly one grade with the form's values and the date and clears the comment; with a fresh id and a roster student (or none selected) `Valid()` carries through |
| `App.SubmitStudent` | App.tsx:50 | once the form's submit event fires: with an empty field nothing is added and the fields stay, else exactly one student with the three field values is appended and the fields are cleared; a fresh id keeps `Valid()` |
| `App.DeleteRow` | components/StudentsView.tsx:106 | row k's delete action removes student k and its grades; with a valid store exactly that student leaves |
| `Common.Filter` | App.tsx:34-35 | the result keeps exactly the elements that pass the test and is no longer than the input |
| `Common.FilterAppend` | App.tsx:34-35 | filtering a concatenation concatenates the filtered parts, so input order is kept |
| `Common.FilterKeepsAll` | App.tsx:34-35 | a filter that rejects nothing returns its input |
| `Common.FilterIdempotent` | App.tsx:34-35 | filtering a second time with the same test changes nothing |
| `Common.FilterKeepsDistinctKeys` | App.tsx:34-35 | filtering a list with distinct keys leaves a list with distinct keys |
| `Common.SplitAfterPiece` | components/MailGeneratorView.tsx:143 | splitting a separator-free piece followed by the separator yields that piece first |
| `Common.Join` | components/MailGeneratorView.tsx:143 | no parts give empty text; otherwise the text starts with the first part and ends with the last |
| `Common.Split` | components/MailGeneratorView.tsx:143 | always at least one piece; text without the separator is one piece (the inverse of `Join`, see `SplitJoin`) |
| `Common.SplitJoin` | components/MailGeneratorView.tsx:143 | joining separator-free lines with `\n` is undone by splitting at `\n` |
| `GradesView.GradeForm.constructor` | components/GradesView.tsx:13-16 | the form starts with no student, the first subject, grade 1 and no comment |
| `GradesView.GradeForm.HandleSubmit` | components/GradesView.tsx:18-31 | without a selected student nothing is handed on and nothing changes; otherwise the draft carries the student, subject, grade, comment and date, and only the comment is cleared |
| `GradesView.GradeEntryPanel` | components/GradesView.tsx:45-48 | the guidance message replaces the form exactly when the roster is empty |
| `GradesView.FirstWithId` | components/GradesView.tsx:34 | the index of the first student with the id, or the roster length when there is none |
| `GradesView.StudentName` | components/GradesView.tsx:33-36 | "first last" of the first student with the id, and `Unbekannt` when no student has it |
| `GradesView.StudentNameOfMember` | components/GradesView.tsx:33-36 | with unique ids every roster student is found under its own id |
| `GradesView.NoUnknownUnderIntegrity` | components/GradesView.tsx:33-36 | while integrity holds, no grade row shows `Unbekannt` |
| `GradesView.DisplayOrder` | components/GradesView.tsx:135 | the shown list has the stored length and position k holds the k-th newest grade |
| `GradesView.NewestFirst` | components/GradesView.tsx:135 | a grade added last is shown on top, above the previous display |
| `GradesView.DisplayOrderInvolutive` | components/GradesView.tsx:135 | reversing the shown copy gives back the stored order |
| `GradesView.Severity` | components/GradesView.tsx:141 | green iff the grade is at most 2, yellow iff above 2 and at most 4, red iff above 4 |
| `GradesView.SeverityMonotone` | components/GradesView.tsx:141 | a higher grade never gets a milder band |
| `GradesView.SeverityBoundaries` | components/GradesView.tsx:141 | 2 is green, 4 is yellow and 5 is red |
| `GradesView.Rows` | components/GradesView.tsx:135-148 | one row per shown grade, in the shown order |
| `GradesView.GradeTableOf` | components/GradesView.tsx:128-150 | the placeholder appears iff there are no grades; otherwise row k shows the k-th newest grade with its resolved name and band |
| `StudentsView.StudentForm.constructor` | components/StudentsView.tsx:13-15 | all three fields start empty |
| `StudentsView.StudentForm.HandleSubmit` | components/StudentsView.tsx:17-28 | with any field empty nothing is handed on and the fields stay; otherwise the draft carries exactly the three values and all fields are cleared |
| `StudentsView.RowsOf` | components/StudentsView.tsx:99-113 | one row per student in stored order, each with the student's own fields and id |
| `StudentsView.RosterTableOf` | components/StudentsView.tsx:92-113 | the placeholder appears iff the roster is empty; otherwise row k shows student k and its delete action names student k's id |
| `Json.PropertyText` | components/MailGeneratorView.tsx:140 | reading `fach` or `note` of a parsed value throws only on null; an object yields its own field or `undefined`; every other value reads `undefined` (for these two keys; the function is restricted to them) |
| `Json.Text` | components/MailGeneratorView.tsx:135-140 | JavaScript's string coercion: `null`, `true`/`false`, a number as its decimal text, a string as itself, an object as `[object Object]`, an empty array as empty text, a one-element array as its element (a null element as empty text) |
| `Json.OptText` | components/MailGeneratorView.tsx:135-140 | a missing value prints as `undefined`, a string as itself |
| `MailGenerator.FirstStringField` | components/MailGeneratorView.tsx:35-50 | the value of the first key whose field is a string, even an empty one; empty when no key holds a string |
| `MailGenerator.NormalizeClass` | components/MailGeneratorView.tsx:29-54 | a string `s` gives `{s, s}`; an object is kept iff its fallback id and name are both non-empty; anything else is dropped |
| `MailGenerator.NormalizeItems` | components/MailGeneratorView.tsx:28-55 | no longer than the input, and every entry is the decoding of some input item (completeness and order: `NormalizeItemsKeepsDecodable`) |
| `MailGenerator.NormalizeClasses` | components/MailGeneratorView.tsx:26-56 | a non-array payload gives the empty list; an array gives exactly the item-by-item decoding of its items (fixed by `NormalizeItemsAppend` and `NormalizeItemsOne`), no extra entries |
| `MailGenerator.NormalizeItemsAppend` | components/MailGeneratorView.tsx:28-55 | decoding a concatenation concatenates the decodings |
| `MailGenerator.NormalizeItemsOne` | components/MailGeneratorView.tsx:28-55 | a single item decodes to its own entry, or to nothing when it is dropped |
| `MailGenerator.NormalizeItemsKeepsDecodable` | components/MailGeneratorView.tsx:28-55 | every item that decodes appears in the list, right after the entries of the items before it: only undecodable items are dropped and the input order is kept |
| `MailGenerator.NormalizeClassesKeepsDecodable` | components/MailGeneratorView.tsx:26-56 | for an array payload every decodable item reaches the class selector, at its input position among the kept entries |
| `MailGenerator.NormalizedEntriesNonEmpty` | components/MailGeneratorView.tsx:30-51 | every entry has a non-empty id and name, except `{"", ""}` from a bare empty string item |
| `MailGenerator.ValueLabelFallback` | components/MailGeneratorView.tsx:35-50 | for any object whose `id` and `name` are missing or not strings, non-empty string `value` and `label` give the entry |
| `MailGenerator.KlasseFallback` | components/MailGeneratorView.tsx:35-50 | for any object with no string `id`, `value`, `name` or `label`, a non-empty string `klasse` gives both the id and the name |
| `MailGenerator.NonStringIdSkipped` | components/MailGeneratorView.tsx:35-42 | for any object, a present but non-string `id` is passed over in favour of a string `value` |
| `MailGenerator.EmptyIdHidesValue` | components/MailGeneratorView.tsx:35-51 | every object whose `id` is the empty string is dropped, whatever `value` and `klasse` hold |
| `MailGenerator.EntryLine` | components/MailGeneratorView.tsx:151 | a string entry is its own line; any other entry becomes its JSON text |
| `MailGenerator.EntryLines` | components/MailGeneratorView.tsx:150-153 | one line per entry: a string entry as it is, any other entry as its JSON text |
| `MailGenerator.NormalizeNoten` | components/MailGeneratorView.tsx:148-157 | an array maps entry by entry to a list of the same length, a string becomes one line, anything else gives no lines |
| `MailGenerator.NormalizeNotenKeepsStrings` | components/MailGeneratorView.tsx:149-153 | an array of strings yields exactly those strings |
| `MailGenerator.MailLine` | components/MailGeneratorView.tsx:140 | a line fails exactly when it does not parse or parses to null; an object gives `<fach> : <note>` from its own fields (`undefined` for a missing one, whatever other keys it has); any other value gives `undefined : undefined` |
| `MailGenerator.MailLines` | components/MailGeneratorView.tsx:139-141 | all lines convert iff each one does, and line k is the conversion of entry k |
| `MailGenerator.ConvertLines` | components/MailGeneratorView.tsx:139-141 | the `forEach` overwrites each array slot with the `fach : note` conversion of its old line, and reports success iff every old line converts |
| `MailGenerator.OpenMail` | components/MailGeneratorView.tsx:134-146 | the mail built from the converted array is exactly the composed mail: recipient, subject and joined lines, or no mail when a line throws |
| `MailGenerator.ComposeFails` | components/MailGeneratorView.tsx:139-141 | one noten line that does not convert leaves no mail |
| `MailGenerator.MailLinesMatch` | components/MailGeneratorView.tsx:139-141 | a list of texts that matches the line-by-line conversions is the whole conversion's result |
| `MailGenerator.ComposeSucceeds` | components/MailGeneratorView.tsx:139-143 | lines that each convert give the mail whose body is their newline join |
| `MailGenerator.MailHeader` | components/MailGeneratorView.tsx:135-136 | the subject is `Noten Semester <semester>: <vorname> <nachname>`; the recipient is the string `email`, else empty |
| `MailGenerator.SubjectWithoutVorname` | components/MailGeneratorView.tsx:135 | for every object item without `vorname`, the subject reads `undefined` in its place |
| `MailGenerator.MailSubject` | components/MailGeneratorView.tsx:135 | the subject always starts `Noten Semester <semester>: `; an item that is not an object gives `undefined undefined` as the name |
| `MailGenerator.MailRecipient` | components/MailGeneratorView.tsx:136 | a non-empty recipient is the item's own string `email`; without a string `email` it is empty |
| `MailGenerator.NotenOf` | components/MailGeneratorView.tsx:137 | the lines are the item's `noten` field normalised; an item that is not an object has none |
| `MailGenerator.ComposeMail` | components/MailGeneratorView.tsx:134-146 | a mail exists iff every noten line converts, and it carries the item's recipient and subject |
| `MailGenerator.MailBodyLines` | components/MailGeneratorView.tsx:139-143 | when no line holds a newline, the body splits back into one `fach : note` line per noten entry, in order |
| `MailGenerator.NoNotenEmptyBody` | components/MailGeneratorView.tsx:137-143 | an item without `noten` gets an empty body |
| `MailGenerator.StructuredEntryLine` | components/MailGeneratorView.tsx:140-151 | a structured `{fach, note}` entry whose JSON text parses back becomes the line `fach : note` |
| `MailGenerator.MailGeneratorState.constructor` | components/MailGeneratorView.tsx:13-21 | no classes, no error, no selections and no generated mails at first |
| `MailGenerator.MailGeneratorState.LoadClasses` | components/MailGeneratorView.tsx:58-81 | a received payload gives the decoded list and no error; a failure gives no classes and the error text |
| `MailGenerator.MailGeneratorState.Generate` | components/MailGeneratorView.tsx:90-132 | with no class or no semester selected no request is sent and nothing changes; otherwise the request carries both selections; an array response becomes the mail list, any other success clears it, and a failure clears the list and the single mail |

## Left out

- Reading the two collections from local storage and writing them back (App.tsx:11-26) is browser storage with JSON serialisation. The constructor takes what storage held.
- The fetch calls to `/api/klassen`, `/api/mails` and `api/hello` are left out. `LoadClasses` and `Generate` take how the call settled as a `Response` parameter.
- The `isMounted` guard and the loading flags `isLoading` and `isLoadingClasses` are left out: they concern asynchronous lifecycle, not logic.
- `JSON.stringify` and `JSON.parse` are function parameters (`stringify`, `parse`). A parse that throws is `None`.
- `encodeURIComponent`, `window.open`, `alert` and `console.log` are left out. `OpenMail` returns the recipient, subject and body the mail link is built from.
- `crypto.randomUUID()` and `new Date().toLocaleDateString` are left out. Ids and the date are parameters.
- The `onChange` setters of the form fields are plain field assignments: the classes' fields are public.
- The `default` branches of the page switches (App.tsx:51-52, 61) cannot be reached: `Page` has exactly three values.
- The per-grade AI mail mode, the AI service, the sidebar and all markup are outside this model. The mail cards' display text (components/MailGeneratorView.tsx:232-250) is also left out; only the mail action is modelled.
- constants.ts is not part of this model. `SUBJECTS` is a constructor parameter of `GradesView.GradeForm`, assumed non-empty.
- GradesView.GradeForm.HandleSubmit, App.SubmitGrade, GradesView.Severity: browser form validation is left out. The number input's `required`, `min`, `max` and `step` attributes and the `required` student select (components/GradesView.tsx:57, 79-87) keep a submit with an empty, out-of-range or off-step grade from reaching `onAddGrade`; the model instead accepts any real grade and bands it. A grade is a `real`, so `NaN` cannot be represented.
- Json.PropertyText: restricted to the keys `fach` and `note`, the only ones the mail action reads; for other keys JavaScript finds inherited properties (a string's `length`, an object's `constructor`) that the model does not know.
- StudentsView.StudentForm.HandleSubmit: the browser's checks on the `type="email"` input (components/StudentsView.tsx:60-66) are left out: the browser blocks the submit for a non-empty value that is not a valid address and strips surrounding whitespace, so `"  "` arrives as `""`. The model starts where the submit event fires and takes the field values as they arrive.
- App.SubmitStudent: the same browser email check is left out; any non-empty email that reaches the handler is appended.
- MailGenerator.OpenMail: requires a non-null item, because rendering a null item's card already throws before its mail button exists. For the same reason its `None` path is defensive: the card render (components/MailGeneratorView.tsx:248) already parses every noten line and reads `fach` and `note`, so a line that would throw in the mail action has thrown in render before the button exists. The model keeps that path as the action's own behaviour.
- MailGenerator.StructuredEntryLine: assumes `parse` reads the entry's JSON text back as the entry. The two library functions are not modelled themselves.
