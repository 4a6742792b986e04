/** The roster page (components/StudentsView.tsx): the add-student form and the roster table. */
module StudentsView {
  import opened Common
  import opened Types

  /** The form's three text fields. */
  class StudentForm {
    var firstName: string
    var lastName: string
    var email: string

    /** All three fields start empty. */
    constructor ()
      ensures firstName == "" && lastName == "" && email == ""
    {
      firstName, lastName, email := "", "", "";
    }

    /** Submit: with any field empty nothing is handed on and the fields stay as they were;
        otherwise the draft carries exactly the three current values and the fields are cleared. */
    method HandleSubmit() returns (added: Option<StudentDraft>)
      modifies this
      ensures old(firstName) == "" || old(lastName) == "" || old(email) == "" ==>
        added == None && firstName == old(firstName) && lastName == old(lastName) && email == old(email)
      ensures old(firstName) != "" && old(lastName) != "" && old(email) != "" ==>
        added == Some(StudentDraft(old(firstName), old(lastName), old(email)))
        && firstName == "" && lastName == "" && email == ""
    {
      if firstName == "" || lastName == "" || email == "" {
        return None;
      }
      added := Some(StudentDraft(firstName, lastName, email));
      firstName, lastName, email := "", "", "";
    }
  }

  /** One roster row: the three shown fields and the id its delete action passes on. */
  datatype RosterRow = RosterRow(firstName: string, lastName: string, email: string, deleteId: string)

  /** The roster table: a placeholder for an empty roster, else one row per student. */
  datatype RosterTable = EmptyRoster | RosterRows(rows: seq<RosterRow>)

  function RowsOf(students: seq<Student>): (rows: seq<RosterRow>)
    ensures |rows| == |students|
    ensures forall k :: 0 <= k < |students| ==>
      rows[k] == RosterRow(students[k].firstName, students[k].lastName, students[k].email, students[k].id)
  {
    if students == [] then []
    else
      var s := students[0];
      [RosterRow(s.firstName, s.lastName, s.email, s.id)] + RowsOf(students[1..])
  }

  /** Row k shows student k of the stored order, and its delete action names that student's own id;
      the placeholder appears exactly for an empty roster. */
  function RosterTableOf(students: seq<Student>): (t: RosterTable)
    ensures t == EmptyRoster <==> students == []
    ensures t.RosterRows? ==> |t.rows| == |students|
    ensures t.RosterRows? ==> forall k :: 0 <= k < |students| ==>
      t.rows[k].deleteId == students[k].id && t.rows[k].firstName == students[k].firstName &&
      t.rows[k].lastName == students[k].lastName && t.rows[k].email == students[k].email
  {
    if |students| == 0 then EmptyRoster else RosterRows(RowsOf(students))
  }
}
