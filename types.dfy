/** The records of the domain (types.ts) and the invariants that tie the two collections together. */
module Types {

  /** A roster entry; `email` is the parents' address. */
  datatype Student = Student(id: string, firstName: string, lastName: string, email: string)

  /** What the roster form hands to the store: a student without its id. */
  datatype StudentDraft = StudentDraft(firstName: string, lastName: string, email: string)

  /** One recorded grade. `grade` is the number the form produced; nothing enforces a range. */
  datatype Grade = Grade(id: string, studentId: string, subject: string, grade: real, comment: string, date: string)

  /** What the grade form hands to the store: a grade without its id. */
  datatype GradeDraft = GradeDraft(studentId: string, subject: string, grade: real, comment: string, date: string)

  /** The three destinations of the navigation. */
  datatype Page = NotenEinfuegen | MailsGenerieren | SchuelerEinfuegen

  function StudentIds(students: seq<Student>): set<string>
  {
    set s | s in students :: s.id
  }

  function GradeIds(grades: seq<Grade>): set<string>
  {
    set g | g in grades :: g.id
  }

  /** No two students share an id. */
  ghost predicate UniqueStudentIds(students: seq<Student>)
  {
    forall i, j :: 0 <= i < j < |students| ==> students[i].id != students[j].id
  }

  /** No two grades share an id. */
  ghost predicate UniqueGradeIds(grades: seq<Grade>)
  {
    forall i, j :: 0 <= i < j < |grades| ==> grades[i].id != grades[j].id
  }

  /** Referential integrity: every grade names a student on the roster. */
  ghost predicate GradesReferToRoster(students: seq<Student>, grades: seq<Grade>)
  {
    forall g :: g in grades ==> g.studentId in StudentIds(students)
  }
}
