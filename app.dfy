/** The application shell (App.tsx): the in-memory domain store with its three mutations,
    the page dispatch, and how the two form components are wired to the store. */
module App {
  import opened Common
  import opened Types
  import GradesView
  import StudentsView

  /** The student a draft becomes once the store gives it an id. */
  function NewStudent(draft: StudentDraft, id: string): (s: Student)
    ensures s.id == id && s.firstName == draft.firstName && s.lastName == draft.lastName && s.email == draft.email
  {
    Student(id, draft.firstName, draft.lastName, draft.email)
  }

  /** The grade a draft becomes once the store gives it an id. */
  function NewGrade(draft: GradeDraft, id: string): (g: Grade)
    ensures g.id == id && g.studentId == draft.studentId && g.subject == draft.subject
    ensures g.grade == draft.grade && g.comment == draft.comment && g.date == draft.date
  {
    Grade(id, draft.studentId, draft.subject, draft.grade, draft.comment, draft.date)
  }

  /** The roster after deleting `id`: every student with another id, in the stored order. */
  function RemainingStudents(students: seq<Student>, id: string): (r: seq<Student>)
    ensures forall s :: s in r <==> s in students && s.id != id
    ensures id !in StudentIds(r)
  {
    Filter(students, (s: Student) => s.id != id)
  }

  /** The grades after deleting student `id`: every grade of another student, in the stored order. */
  function RemainingGrades(grades: seq<Grade>, studentId: string): (r: seq<Grade>)
    ensures forall g :: g in r <==> g in grades && g.studentId != studentId
  {
    Filter(grades, (g: Grade) => g.studentId != studentId)
  }

  /** Deleting from a roster split in two deletes from each part: the survivors keep their order. */
  lemma RemainingStudentsAppend(xs: seq<Student>, ys: seq<Student>, id: string)
    ensures RemainingStudents(xs + ys, id) == RemainingStudents(xs, id) + RemainingStudents(ys, id)
  {
    FilterAppend(xs, ys, (s: Student) => s.id != id);
  }

  /** The cascade likewise keeps the surviving grades in their order. */
  lemma RemainingGradesAppend(xs: seq<Grade>, ys: seq<Grade>, studentId: string)
    ensures RemainingGrades(xs + ys, studentId) == RemainingGrades(xs, studentId) + RemainingGrades(ys, studentId)
  {
    FilterAppend(xs, ys, (g: Grade) => g.studentId != studentId);
  }

  /** Deleting an id no student has leaves the roster as it was and, while every grade refers to
      the roster, leaves the grades as they were too. */
  lemma DeleteAbsentIsNoOp(students: seq<Student>, grades: seq<Grade>, id: string)
    requires id !in StudentIds(students)
    ensures RemainingStudents(students, id) == students
    ensures GradesReferToRoster(students, grades) ==> RemainingGrades(grades, id) == grades
  {
    forall i | 0 <= i < |students| ensures students[i].id != id {
      assert students[i] in students;
    }
    KeepsAllOtherIds(students, id);
    if GradesReferToRoster(students, grades) {
      forall i | 0 <= i < |grades| ensures grades[i].studentId != id {
        assert grades[i] in grades;
      }
      FilterKeepsAll(grades, (g: Grade) => g.studentId != id);
    }
  }

  /** Deleting the student of row k of a roster with unique ids removes exactly that row. */
  lemma DeleteRemovesOnlyThatStudent(students: seq<Student>, k: nat)
    requires UniqueStudentIds(students)
    requires k < |students|
    ensures RemainingStudents(students, students[k].id) == students[..k] + students[k + 1..]
  {
    var id := students[k].id;
    var (before, after) := (students[..k], students[k + 1..]);
    assert students == before + [students[k]] + after;
    RemainingStudentsAppend(before + [students[k]], after, id);
    RemainingStudentsAppend(before, [students[k]], id);
    KeepsAllOtherIds(before, id);
    KeepsAllOtherIds(after, id);
  }

  /** A roster in which no student has `id` survives deleting `id` unchanged. */
  lemma KeepsAllOtherIds(students: seq<Student>, id: string)
    requires forall i :: 0 <= i < |students| ==> students[i].id != id
    ensures RemainingStudents(students, id) == students
  {
    FilterKeepsAll(students, (s: Student) => s.id != id);
  }

  /** The cascade keeps referential integrity: if every grade named a student before, every
      remaining grade names a remaining student. */
  lemma DeleteKeepsIntegrity(students: seq<Student>, grades: seq<Grade>, id: string)
    requires GradesReferToRoster(students, grades)
    ensures GradesReferToRoster(RemainingStudents(students, id), RemainingGrades(grades, id))
  {
    var rs, rg := RemainingStudents(students, id), RemainingGrades(grades, id);
    forall g | g in rg ensures g.studentId in StudentIds(rs) {
      var s :| s in students && s.id == g.studentId;
      assert s in rs;
    }
  }

  /** Appending a student under an id not yet in use keeps the ids pairwise distinct. */
  lemma AddFreshStudentKeepsIdsUnique(students: seq<Student>, draft: StudentDraft, id: string)
    requires UniqueStudentIds(students)
    requires id !in StudentIds(students)
    ensures UniqueStudentIds(students + [NewStudent(draft, id)])
  {
    var r := students + [NewStudent(draft, id)];
    forall i, j | 0 <= i < j < |r| ensures r[i].id != r[j].id {
      if j == |students| {
        assert r[i] in students;
      }
    }
  }

  /** Appending a grade under a fresh id for a student on the roster keeps grade ids distinct
      and keeps integrity. */
  lemma AddGradeKeepsInvariants(students: seq<Student>, grades: seq<Grade>, draft: GradeDraft, id: string)
    requires UniqueGradeIds(grades) && GradesReferToRoster(students, grades)
    requires id !in GradeIds(grades)
    requires draft.studentId in StudentIds(students)
    ensures UniqueGradeIds(grades + [NewGrade(draft, id)])
    ensures GradesReferToRoster(students, grades + [NewGrade(draft, id)])
  {
    var r := grades + [NewGrade(draft, id)];
    forall i, j | 0 <= i < j < |r| ensures r[i].id != r[j].id {
      if j == |grades| {
        assert r[i] in grades;
      }
    }
  }

  /** The component each page renders. */
  datatype Component = GradesComponent | MailGeneratorComponent | StudentsComponent

  /** Each page renders its own view. */
  function RenderContent(page: Page): (c: Component)
    ensures page == NotenEinfuegen <==> c == GradesComponent
    ensures page == MailsGenerieren <==> c == MailGeneratorComponent
    ensures page == SchuelerEinfuegen <==> c == StudentsComponent
  {
    match page
    case NotenEinfuegen => GradesComponent
    case MailsGenerieren => MailGeneratorComponent
    case SchuelerEinfuegen => StudentsComponent
  }

  /** The header title of each page. */
  function PageTitle(page: Page): (t: string)
    ensures t != ""
  {
    match page
    case NotenEinfuegen => "Noten Einf\U{FC}gen"
    case MailsGenerieren => "KI Mail-Generator"
    case SchuelerEinfuegen => "Sch\U{FC}lerverwaltung"
  }

  /** Distinct pages have distinct titles. */
  lemma PageTitlesDistinct(p: Page, q: Page)
    requires p != q
    ensures PageTitle(p) != PageTitle(q)
  {
    var a, b := PageTitle(p), PageTitle(q);
    if |a| == |b| {
      assert a[0] != b[0];
    }
  }

  /** The application state: the selected page and the two collections. */
  class AppState {
    var currentPage: Page
    var students: seq<Student>
    var grades: seq<Grade>

    /** Distinct ids in both collections and referential integrity. */
    ghost predicate Valid()
      reads this
    {
      UniqueStudentIds(students) && UniqueGradeIds(grades) && GradesReferToRoster(students, grades)
    }

    /** Start on the grade-entry page with the collections read back from storage. */
    constructor (savedStudents: seq<Student>, savedGrades: seq<Grade>)
      ensures currentPage == NotenEinfuegen && students == savedStudents && grades == savedGrades
    {
      currentPage := NotenEinfuegen;
      students := savedStudents;
      grades := savedGrades;
    }

    /** Select another page. */
    method Navigate(page: Page)
      modifies this`currentPage
      ensures currentPage == page
    {
      currentPage := page;
    }

    /** Append the new student, built from the draft and the generated id; nothing else changes.
        A fresh id keeps the invariant. */
    method AddStudent(draft: StudentDraft, newId: string)
      modifies this`students
      ensures students == old(students) + [NewStudent(draft, newId)]
      ensures old(Valid()) && newId !in StudentIds(old(students)) ==> Valid()
    {
      ghost var before := students;
      students := students + [NewStudent(draft, newId)];
      if UniqueStudentIds(before) && newId !in StudentIds(before) {
        AddFreshStudentKeepsIdsUnique(before, draft, newId);
      }
      assert StudentIds(before) <= StudentIds(students) by {
        forall s | s in before ensures s in students { }
      }
    }

    /** Remove the student and, in cascade, every grade of that student. */
    method DeleteStudent(id: string)
      modifies this`students, this`grades
      ensures students == RemainingStudents(old(students), id)
      ensures grades == RemainingGrades(old(grades), id)
      ensures id !in StudentIds(students) && forall g :: g in grades ==> g.studentId != id
      ensures old(Valid()) ==> Valid()
    {
      ghost var (s0, g0) := (students, grades);
      students := RemainingStudents(students, id);
      grades := RemainingGrades(grades, id);
      if GradesReferToRoster(s0, g0) {
        DeleteKeepsIntegrity(s0, g0, id);
      }
      if UniqueStudentIds(s0) && UniqueGradeIds(g0) {
        DeleteKeepsIdsUnique(s0, g0, id);
      }
    }

    /** Append the new grade, built from the draft and the generated id; the store does not check
        the student reference. A fresh id for a student on the roster keeps the invariant. */
    method AddGrade(draft: GradeDraft, newId: string)
      modifies this`grades
      ensures grades == old(grades) + [NewGrade(draft, newId)]
      ensures old(Valid()) && newId !in GradeIds(old(grades)) && draft.studentId in StudentIds(students) ==> Valid()
    {
      ghost var (wasValid, before) := (Valid(), grades);
      grades := grades + [NewGrade(draft, newId)];
      if wasValid && newId !in GradeIds(before) && draft.studentId in StudentIds(students) {
        AddGradeKeepsInvariants(students, before, draft, newId);
      }
    }
  }

  /** Deleting keeps the ids of both collections pairwise distinct. */
  lemma DeleteKeepsIdsUnique(students: seq<Student>, grades: seq<Grade>, id: string)
    requires UniqueStudentIds(students) && UniqueGradeIds(grades)
    ensures UniqueStudentIds(RemainingStudents(students, id))
    ensures UniqueGradeIds(RemainingGrades(grades, id))
  {
    FilterKeepsDistinctKeys(students, (s: Student) => s.id != id, (s: Student) => s.id);
    FilterKeepsDistinctKeys(grades, (g: Grade) => g.studentId != id, (g: Grade) => g.id);
  }

  /** The grade form's submit handed to the store's `addGrade`: without a selected student the
      grade list and the form are left alone, otherwise exactly one grade with the form's values is
      appended and the comment is cleared. Since the form offers roster ids alone, a fresh id keeps
      the store's invariant. */
  method SubmitGrade(app: AppState, form: GradesView.GradeForm, date: string, newId: string)
    modifies app`grades, form`comment
    ensures old(form.selectedStudentId) == "" ==> app.grades == old(app.grades)
    ensures old(form.selectedStudentId) != "" ==>
      app.grades == old(app.grades) + [Grade(newId, old(form.selectedStudentId), old(form.selectedSubject),
                                             old(form.gradeValue), old(form.comment), date)]
    ensures form.comment == (if old(form.selectedStudentId) == "" then old(form.comment) else "")
    ensures old(app.Valid()) && newId !in GradeIds(old(app.grades)) &&
            (old(form.selectedStudentId) == "" || old(form.selectedStudentId) in StudentIds(app.students))
            ==> app.Valid()
  {
    var added := form.HandleSubmit(date);
    if added.Some? {
      app.AddGrade(added.value, newId);
    }
  }

  /** The roster form's submit handed to the store's `addStudent`: with an empty field nothing
      changes; otherwise the student is appended and the three fields are cleared. A fresh id keeps
      the store's invariant. */
  method SubmitStudent(app: AppState, form: StudentsView.StudentForm, newId: string)
    modifies app`students, form
    ensures old(form.firstName) == "" || old(form.lastName) == "" || old(form.email) == "" ==>
      app.students == old(app.students)
    ensures old(form.firstName) != "" && old(form.lastName) != "" && old(form.email) != "" ==>
      app.students == old(app.students) + [Student(newId, old(form.firstName), old(form.lastName), old(form.email))]
    ensures old(form.firstName) == "" || old(form.lastName) == "" || old(form.email) == "" ==>
      form.firstName == old(form.firstName) && form.lastName == old(form.lastName) && form.email == old(form.email)
    ensures old(form.firstName) != "" && old(form.lastName) != "" && old(form.email) != "" ==>
      form.firstName == "" && form.lastName == "" && form.email == ""
    ensures old(app.Valid()) && newId !in StudentIds(old(app.students)) ==> app.Valid()
  {
    var added := form.HandleSubmit();
    if added.Some? {
      app.AddStudent(added.value, newId);
    }
  }

  /** The delete action of roster row k handed to the store's `deleteStudent`: with unique ids
      exactly that student leaves the roster, together with all of its grades. */
  method DeleteRow(app: AppState, k: nat)
    requires k < |app.students|
    modifies app`students, app`grades
    ensures app.students == RemainingStudents(old(app.students), old(app.students[k].id))
    ensures app.grades == RemainingGrades(old(app.grades), old(app.students[k].id))
    ensures old(app.Valid()) ==> app.Valid() && app.students == old(app.students[..k] + app.students[k + 1..])
  {
    var table := StudentsView.RosterTableOf(app.students);
    ghost var wasValid := app.Valid();
    ghost var before := app.students;
    app.DeleteStudent(table.rows[k].deleteId);
    if wasValid {
      DeleteRemovesOnlyThatStudent(before, k);
    }
  }
}
