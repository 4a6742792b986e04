/** The grade-entry page (components/GradesView.tsx): the form state and its submit guard,
    and the derived table of recorded grades. */
module GradesView {
  import opened Common
  import opened Types

  /** Placeholder shown for a grade whose student is no longer on the roster. */
  const UnknownStudent: string := "Unbekannt"

  /** The form's fields. */
  class GradeForm {
    var selectedStudentId: string
    var selectedSubject: string
    var gradeValue: real
    var comment: string

    /** Initial form: no student, the first subject of the fixed list, grade 1, no comment. */
    constructor (subjects: seq<string>)
      requires |subjects| > 0
      ensures selectedStudentId == "" && selectedSubject == subjects[0]
      ensures gradeValue == 1.0 && comment == ""
    {
      selectedStudentId := "";
      selectedSubject := subjects[0];
      gradeValue := 1.0;
      comment := "";
    }

    /** Submit: without a selected student nothing is handed on; otherwise the draft carries
        the current selections and the given date, and only the comment is cleared. */
    method HandleSubmit(date: string) returns (added: Option<GradeDraft>)
      modifies this`comment
      ensures selectedStudentId == old(selectedStudentId) && selectedSubject == old(selectedSubject)
      ensures gradeValue == old(gradeValue)
      ensures old(selectedStudentId) == "" ==> added == None && comment == old(comment)
      ensures old(selectedStudentId) != "" ==>
        added == Some(GradeDraft(old(selectedStudentId), old(selectedSubject), old(gradeValue), old(comment), date))
        && comment == ""
    {
      if selectedStudentId == "" {
        return None;
      }
      added := Some(GradeDraft(selectedStudentId, selectedSubject, gradeValue, comment, date));
      comment := "";
    }
  }

  /** What the upper panel shows. */
  datatype EntryPanel = Guidance | EntryForm

  /** The form is replaced by the guidance message exactly when the roster is empty. */
  function GradeEntryPanel(students: seq<Student>): (p: EntryPanel)
    ensures p == Guidance <==> students == []
  {
    if |students| == 0 then Guidance else EntryForm
  }

  /** Index of the first student with the given id, or |students| when there is none. */
  function FirstWithId(students: seq<Student>, id: string): (i: nat)
    ensures i <= |students|
    ensures i < |students| ==> students[i].id == id
    ensures forall j :: 0 <= j < i ==> students[j].id != id
  {
    if students == [] then 0
    else if students[0].id == id then 0
    else 1 + FirstWithId(students[1..], id)
  }

  /** The display name for a grade's student reference: "first last" of the first match,
      or the placeholder when no student has that id. */
  function StudentName(students: seq<Student>, id: string): (name: string)
    ensures (forall s :: s in students ==> s.id != id) ==> name == UnknownStudent
    ensures forall i ::
              (0 <= i < |students| && students[i].id == id && forall j :: 0 <= j < i ==> students[j].id != id)
              ==> name == students[i].firstName + " " + students[i].lastName
  {
    var i := FirstWithId(students, id);
    if i < |students| then students[i].firstName + " " + students[i].lastName
    else UnknownStudent
  }

  /** With unique ids, every student on the roster is found by its own id. */
  lemma StudentNameOfMember(students: seq<Student>, k: nat)
    requires UniqueStudentIds(students)
    requires k < |students|
    ensures StudentName(students, students[k].id) == students[k].firstName + " " + students[k].lastName
  {
    var i := FirstWithId(students, students[k].id);
    assert i == k;
  }

  /** While every grade refers to a student on the roster the placeholder never appears:
      a found name always holds the separating space, the placeholder does not. */
  lemma NoUnknownUnderIntegrity(students: seq<Student>, grades: seq<Grade>, g: Grade)
    requires GradesReferToRoster(students, grades)
    requires g in grades
    ensures StudentName(students, g.studentId) != UnknownStudent
  {
    var i := FirstWithId(students, g.studentId);
    assert g.studentId in StudentIds(students);
    var s :| s in students && s.id == g.studentId;
    assert i < |students|;
    var name := students[i].firstName + " " + students[i].lastName;
    assert name[|students[i].firstName|] == ' ';
    assert ' ' !in UnknownStudent;
  }

  /** The table order: most recent first, a reversed copy of the stored list. */
  function DisplayOrder(grades: seq<Grade>): (r: seq<Grade>)
    ensures |r| == |grades|
    ensures forall k :: 0 <= k < |grades| ==> r[k] == grades[|grades| - 1 - k]
  {
    if grades == [] then [] else DisplayOrder(grades[1..]) + [grades[0]]
  }

  /** The grade added last is shown on top, above the previous display. */
  lemma NewestFirst(grades: seq<Grade>, g: Grade)
    ensures DisplayOrder(grades + [g]) == [g] + DisplayOrder(grades)
  {
    var r := DisplayOrder(grades + [g]);
    assert r[0] == g;
    assert forall k :: 1 <= k < |r| ==> r[k] == DisplayOrder(grades)[k - 1];
  }

  /** Reversing the displayed copy gives back the stored order. */
  lemma DisplayOrderInvolutive(grades: seq<Grade>)
    ensures DisplayOrder(DisplayOrder(grades)) == grades
  {
  }

  /** The colour band of a grade cell. */
  datatype Band = Green | Yellow | Red

  /** Green up to 2, yellow above 2 up to 4, red above 4. */
  function Severity(grade: real): (b: Band)
    ensures b == Green <==> grade <= 2.0
    ensures b == Yellow <==> 2.0 < grade <= 4.0
    ensures b == Red <==> 4.0 < grade
  {
    if grade <= 2.0 then Green else if grade <= 4.0 then Yellow else Red
  }

  function BandRank(b: Band): nat
  {
    match b
    case Green => 0
    case Yellow => 1
    case Red => 2
  }

  /** A worse (higher) grade never gets a milder band. */
  lemma SeverityMonotone(a: real, b: real)
    requires a <= b
    ensures BandRank(Severity(a)) <= BandRank(Severity(b))
  {
  }

  /** The boundary cases: 2 is green, 4 is yellow, 5 is red. */
  lemma SeverityBoundaries()
    ensures Severity(2.0) == Green && Severity(4.0) == Yellow && Severity(5.0) == Red
  {
  }

  /** One table row as shown. */
  datatype GradeRow = GradeRow(student: string, subject: string, grade: real, band: Band, comment: string, date: string)

  /** The lower table: a placeholder when there are no grades, else one row per grade. */
  datatype GradeTable = NoGrades | GradeRows(rows: seq<GradeRow>)

  function RowOf(students: seq<Student>, g: Grade): GradeRow
  {
    GradeRow(StudentName(students, g.studentId), g.subject, g.grade, Severity(g.grade), g.comment, g.date)
  }

  function Rows(students: seq<Student>, shown: seq<Grade>): (rows: seq<GradeRow>)
    ensures |rows| == |shown|
    ensures forall k :: 0 <= k < |shown| ==> rows[k] == RowOf(students, shown[k])
  {
    if shown == [] then [] else [RowOf(students, shown[0])] + Rows(students, shown[1..])
  }

  /** Row k shows the k-th most recent grade, with its resolved name and its band. */
  function GradeTableOf(students: seq<Student>, grades: seq<Grade>): (t: GradeTable)
    ensures t == NoGrades <==> grades == []
    ensures t.GradeRows? ==> |t.rows| == |grades|
    ensures t.GradeRows? ==> forall k :: 0 <= k < |grades| ==>
      var g := grades[|grades| - 1 - k];
      t.rows[k] == GradeRow(StudentName(students, g.studentId), g.subject, g.grade, Severity(g.grade), g.comment, g.date)
  {
    if |grades| == 0 then NoGrades else GradeRows(Rows(students, DisplayOrder(grades)))
  }
}
