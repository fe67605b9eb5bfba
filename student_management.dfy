/** The student management page: the list filters, the removal of duplicate
    rows, the status toggle and the record the form sends. An absent class or
    school is the empty string; the answers to the page's confirmation
    dialogs are inputs. */
module StudentManagement {
  import opened Common
  import Lists

  datatype Student = Student(
    id: string, firstName: string, secondName: string, thirdName: string, lastName: string,
    status: string, schoolId: string, classId: string)

  datatype ClassInfo = ClassInfo(id: string, schoolId: string, semesterId: string)

  const All: string := "all"

  datatype Filters = Filters(search: string, status: string, school: string, semester: string, classFilter: string)

  function StudentId(s: Student): string { s.id }

  /** The non-empty name parts joined with single spaces. */
  function FullName(s: Student): string {
    var parts := Lists.Filter([s.firstName, s.secondName, s.thirdName, s.lastName], (p: string) => |p| > 0);
    if |parts| == 0 then "" else Join(parts, ' ')
  }

  /** `new Map(classes.map(...)).get(id)`: a later entry with the same id wins. */
  function ClassById(classes: seq<ClassInfo>, id: string): (r: Option<ClassInfo>)
    ensures r.Some? ==> r.value in classes && r.value.id == id
    ensures r.None? <==> forall c :: c in classes ==> c.id != id
  {
    if |classes| == 0 then None
    else if classes[|classes| - 1].id == id then Some(classes[|classes| - 1])
    else ClassById(classes[..|classes| - 1], id)
  }

  predicate MatchesSearch(s: Student, search: string) {
    var needle := ToLower(Trim(search));
    |needle| == 0 || Contains(ToLower(FullName(s)), needle) || Contains(ToLower(s.id), needle)
  }

  predicate MatchesSemester(s: Student, classes: seq<ClassInfo>, semester: string) {
    semester == All
    || (|s.classId| > 0 && var c := ClassById(classes, s.classId); c.Some? && c.value.semesterId == semester)
  }

  /** The row test of `filteredStudents`. */
  predicate Shown(s: Student, classes: seq<ClassInfo>, f: Filters) {
    MatchesSearch(s, f.search)
    && (f.status == All || s.status == f.status)
    && (f.school == All || s.schoolId == f.school)
    && MatchesSemester(s, classes, f.semester)
    && (f.classFilter == All || s.classId == f.classFilter)
  }

  function Filtered(students: seq<Student>, classes: seq<ClassInfo>, f: Filters): (r: seq<Student>)
    ensures forall i :: 0 <= i < |r| ==> r[i] in students && Shown(r[i], classes, f)
    ensures forall i :: 0 <= i < |students| && Shown(students[i], classes, f) ==> students[i] in r
  {
    Lists.Filter(students, (s: Student) => Shown(s, classes, f))
  }

  /** A blank search and every filter at "all" show every student. */
  lemma NoFilterShowsAll(s: Student, classes: seq<ClassInfo>, search: string)
    requires |Trim(search)| == 0
    ensures Shown(s, classes, Filters(search, All, All, All, All))
  {
  }

  /** A student of another status is never shown under a status filter. */
  lemma StatusFilterExact(s: Student, classes: seq<ClassInfo>, f: Filters)
    requires f.status != All && Shown(s, classes, f)
    ensures s.status == f.status
  {
  }

  /** `uniqueStudents`: the `reduce` that pushes a student unless one with
      the same id is already in the accumulator. */
  method UniqueStudents(xs: seq<Student>) returns (acc: seq<Student>)
    ensures acc == Lists.FirstPerKey(xs, StudentId)
    ensures Lists.DistinctKeys(acc, StudentId)
    ensures forall i :: 0 <= i < |acc| ==> acc[i] in xs
    ensures Lists.KeySet(acc, StudentId) == Lists.KeySet(xs, StudentId)
  {
    acc := [];
    var i := 0;
    while i < |xs|
      invariant 0 <= i <= |xs|
      invariant acc == Lists.FirstPerKey(xs[..i], StudentId)
    {
      var student := xs[i];
      assert xs[..i + 1][..i] == xs[..i];
      if !(exists s :: s in acc && s.id == student.id) {
        acc := acc + [student];
      } else {
        var s :| s in acc && s.id == student.id;
        assert StudentId(student) in Lists.KeySet(acc, StudentId);
      }
      i := i + 1;
    }
    assert xs[..|xs|] == xs;
    forall k | 0 <= k < |acc|
      ensures acc[k] in xs
    {
      var j :| 0 <= j < |xs| && xs[j] == acc[k] && forall m :: 0 <= m < j ==> xs[m].id != acc[k].id;
    }
  }

  /** The class drop-down: classes of the chosen school and semester. */
  function VisibleClasses(classes: seq<ClassInfo>, school: string, semester: string): (r: seq<ClassInfo>)
    ensures forall c :: c in r <==> c in classes && (school == All || c.schoolId == school)
                                    && (semester == All || c.semesterId == semester)
  {
    Lists.Filter(classes, (c: ClassInfo) => (school == All || c.schoolId == school) && (semester == All || c.semesterId == semester))
  }

  /** `handleToggleStatus`: the new status it sends, or None when nothing is
      sent: activation is refused because the student has no class, or the
      suspension dialog is declined (`confirmSuspend`). */
  function ToggleStatus(s: Student, confirmSuspend: bool): (r: Option<string>)
    ensures r.None? <==> (s.status != "active" && |s.classId| == 0) || (s.status == "active" && !confirmSuspend)
    ensures r.Some? ==> (r.value == "suspended" <==> s.status == "active")
    ensures r.Some? ==> r.value == "suspended" || r.value == "active"
  {
    var next := if s.status == "active" then "suspended" else "active";
    if next == "active" && |s.classId| == 0 then None
    else if next == "suspended" && !confirmSuspend then None
    else Some(next)
  }

  /** No student is activated by the toggle without a class, and none is
      suspended without the dialog confirmed. */
  lemma ToggleNeverActivatesClassless(s: Student, confirmSuspend: bool)
    ensures |s.classId| == 0 ==> ToggleStatus(s, confirmSuspend) != Some("active")
    ensures !confirmSuspend ==> ToggleStatus(s, confirmSuspend) != Some("suspended")
  {
  }

  /** The status the form submits: an inactive student being edited becomes
      active when first assigned to a school or class, or moved to another
      class, and the matching dialog is confirmed. */
  function FinalStatus(editing: Option<Student>, current: Student, confirmAssign: bool, confirmMove: bool): (r: string)
    ensures r != current.status ==> r == "active" && editing.Some? && editing.value.status == "inactive"
    ensures (editing.Some? && editing.value.status == "inactive" && |current.classId| > 0
             && current.classId != editing.value.classId && confirmMove) ==> r == "active"
    ensures editing.None? ==> r == current.status
  {
    if editing.None? || editing.value.status != "inactive" then current.status
    else
      var before := editing.value;
      var isAssigned := |current.schoolId| > 0 || |current.classId| > 0;
      var first := |before.schoolId| == 0 && |before.classId| == 0;
      var moved := |current.classId| > 0 && current.classId != before.classId;
      if (isAssigned && first && confirmAssign) || (moved && confirmMove) then "active" else current.status
  }

  /** A text field sent only when it is non-blank. */
  function IfNonBlank(s: string, trimmed: bool): (r: Option<string>)
    ensures r.Some? <==> |Trim(s)| > 0
    ensures r.Some? ==> r.value == if trimmed then Trim(s) else s
  {
    if |Trim(s)| > 0 then Some(if trimmed then Trim(s) else s) else None
  }

  /** `if (x) studentData.x = parseInt(x)`: sent only when the field is
      non-empty, as `parseInt` of it; a NaN is sent as JSON null, here the
      inner None. */
  function IfSetParsed(s: string): (r: Option<Option<int>>)
    ensures r.None? <==> |s| == 0
    ensures r.Some? ==> r.value == ParseInt(s)
  {
    if |s| > 0 then Some(ParseInt(s)) else None
  }

  /** A number the form's picker wrote reads back as itself. */
  lemma PickedNumberSent(n: nat)
    ensures IfSetParsed(NatToString(n)) == Some(Some(n))
  {
    ParseIntOfNatToString(n);
  }

  datatype Form = Form(student: Student, schoolLevel: string, email: string, phone: string, address: string,
                       dateOfBirth: string, notes: string, memorizedSurah: string, memorizedAyah: string,
                       targetSurah: string, targetAyah: string)

  datatype Payload = Payload(
    names: seq<string>, schoolLevel: string, status: string, id: Option<string>, email: Option<string>,
    phone: Option<string>, address: Option<string>, dateOfBirth: Option<string>,
    notes: Option<string>, schoolId: Option<string>, classId: Option<string>,
    memorizedSurah: Option<Option<int>>, memorizedAyah: Option<Option<int>>,
    targetSurah: Option<Option<int>>, targetAyah: Option<Option<int>>)

  /** `studentData`: the four name parts and the school level always; the
      id of a new student only when its trimmed length is ten; the optional
      text fields only when non-blank, trimmed except the date of birth; the
      school and class when set; the four memorisation fields when set, as
      `parseInt` reads them; an empty status becomes "inactive". */
  function BuildPayload(f: Form, editing: bool, status: string): (p: Payload)
    ensures p.names == [f.student.firstName, f.student.secondName, f.student.thirdName, f.student.lastName]
    ensures p.schoolLevel == f.schoolLevel
    ensures p.id.Some? <==> !editing && |Trim(f.student.id)| == 10
    ensures p.id.Some? ==> p.id.value == Trim(f.student.id) && |p.id.value| == 10
    ensures p.email == IfNonBlank(f.email, true) && p.phone == IfNonBlank(f.phone, true)
    ensures p.address == IfNonBlank(f.address, true) && p.notes == IfNonBlank(f.notes, true)
    ensures p.dateOfBirth == IfNonBlank(f.dateOfBirth, false)
    ensures p.status == if |status| == 0 then "inactive" else status
    ensures p.schoolId.Some? <==> |f.student.schoolId| > 0
    ensures p.schoolId.Some? ==> p.schoolId.value == f.student.schoolId
    ensures p.classId.Some? <==> |f.student.classId| > 0
    ensures p.classId.Some? ==> p.classId.value == f.student.classId
    ensures p.memorizedSurah == IfSetParsed(f.memorizedSurah) && p.memorizedAyah == IfSetParsed(f.memorizedAyah)
    ensures p.targetSurah == IfSetParsed(f.targetSurah) && p.targetAyah == IfSetParsed(f.targetAyah)
  {
    var s := f.student;
    var id := if !editing && |Trim(s.id)| == 10 then Some(Trim(s.id)) else None;
    var email, phone, address := IfNonBlank(f.email, true), IfNonBlank(f.phone, true), IfNonBlank(f.address, true);
    var birth, notes := IfNonBlank(f.dateOfBirth, false), IfNonBlank(f.notes, true);
    var school := if |s.schoolId| > 0 then Some(s.schoolId) else None;
    var classId := if |s.classId| > 0 then Some(s.classId) else None;
    Payload([s.firstName, s.secondName, s.thirdName, s.lastName], f.schoolLevel,
      if |status| == 0 then "inactive" else status, id, email, phone, address, birth, notes, school, classId,
      IfSetParsed(f.memorizedSurah), IfSetParsed(f.memorizedAyah),
      IfSetParsed(f.targetSurah), IfSetParsed(f.targetAyah))
  }

  /** The optional text fields of the record: each is sent exactly when the
      form's field is non-blank, trimmed except the date of birth. */
  lemma PayloadOptionalText(f: Form, editing: bool, status: string)
    ensures var p := BuildPayload(f, editing, status);
      && (p.phone.Some? <==> |Trim(f.phone)| > 0) && (p.phone.Some? ==> p.phone.value == Trim(f.phone))
      && (p.address.Some? <==> |Trim(f.address)| > 0) && (p.address.Some? ==> p.address.value == Trim(f.address))
      && (p.notes.Some? <==> |Trim(f.notes)| > 0) && (p.notes.Some? ==> p.notes.value == Trim(f.notes))
      && (p.dateOfBirth.Some? <==> |Trim(f.dateOfBirth)| > 0)
      && (p.dateOfBirth.Some? ==> p.dateOfBirth.value == f.dateOfBirth)
  {
  }
}
