/** The student handlers: the self-registration rules and the rows a
    registration writes, and the update of a student with its e-mail and
    phone checks, the activation guard, the two dynamically built UPDATE
    queries and the replacement of the student's enrolment. Rows are maps
    from column to value; the school ids the activation guard reads and the
    general class of a school are query results handed in. */
module StudentsRoute {
  import opened Common
  import opened FormRules
  import opened SqlParams


  /** validator.js `isNumeric` with its default options:
      `^[+-]?([0-9]*[.])?[0-9]+$`. */
  predicate IsNumeric(s: string) {
    UnsignedDecimal(if |s| > 0 && (s[0] == '+' || s[0] == '-') then s[1..] else s)
  }

  /** `([0-9]*[.])?[0-9]+`: digits, or digits, a point and at least one digit. */
  predicate UnsignedDecimal(t: string) {
    |t| >= 1 && (AllDigits(t) || exists k :: 0 <= k < |t| - 1 && t[k] == '.' && AllDigits(t[..k]) && AllDigits(t[k + 1..]))
  }

  lemma TenDigitsAreNumeric(s: string)
    requires IsTenDigits(s)
    ensures |s| == 10 && IsNumeric(s)
  {
    assert !IsDigit('+') && !IsDigit('-');
  }

  /** The registration body. Missing names are empty strings;
      `isoBirthDate` and `emailAccepted` are the verdicts of validator.js's
      `isISO8601` and `isEmail`, which are not part of this model. */
  datatype Registration = Registration(
    id: string, firstName: string, secondName: string, thirdName: string, lastName: string,
    schoolLevel: string, birthDate: string, isoBirthDate: bool, password: string,
    phone: Option<string>, email: Option<string>, emailAccepted: bool, parentId: Option<string>)

  /** The rules every rule set shares: the four names and the school level
      non-empty, an ISO date of birth, a password of six characters or
      more, and, when non-empty, a mobile number and an e-mail address. */
  predicate CommonRules(r: Registration) {
    |r.firstName| > 0 && |r.secondName| > 0 && |r.thirdName| > 0 && |r.lastName| > 0
    && |r.schoolLevel| > 0 && r.isoBirthDate && |r.password| >= 6
    && (Truthy(r.phone) ==> IsMobile(r.phone.value))
    && (Truthy(r.email) ==> r.emailAccepted)
  }

  /** The validation chain as written: the id and a non-empty parent id
      need length 10 and `isNumeric`, which also admits a sign and a
      decimal point. */
  predicate ValidAsWritten(r: Registration) {
    CommonRules(r) && |r.id| == 10 && IsNumeric(r.id)
    && (Truthy(r.parentId) ==> |r.parentId.value| == 10 && IsNumeric(r.parentId.value))
  }

  /** The rules the messages describe ("10 digits", "digits only"). */
  predicate Valid(r: Registration) {
    CommonRules(r) && IsTenDigits(r.id) && (Truthy(r.parentId) ==> IsTenDigits(r.parentId.value))
  }

  /** Every registration the intended rules accept passes the chain as
      written. */
  lemma ValidPassesAsWritten(r: Registration)
    requires Valid(r)
    ensures ValidAsWritten(r)
  {
    TenDigitsAreNumeric(r.id);
    if Truthy(r.parentId) {
      TenDigitsAreNumeric(r.parentId.value);
    }
  }

  /** The chain as written accepts a signed ten-character id. */
  lemma SignedIdPasses()
    ensures |"+123456789"| == 10 && IsNumeric("+123456789") && !IsTenDigits("+123456789")
  {
    var s := "+123456789";
    assert s[1..] == "123456789";
    assert AllDigits(s[1..]);
    assert !IsDigit(s[0]);
  }

  /** The chain as written accepts a ten-character id with a decimal point. */
  lemma DecimalIdPasses()
    ensures |"12345.6789"| == 10 && IsNumeric("12345.6789") && !IsTenDigits("12345.6789")
  {
    var t := "12345.6789";
    assert t[0] != '+' && t[0] != '-';
    assert t[..5] == "12345" && t[6..] == "6789";
    assert AllDigits(t[..5]) && AllDigits(t[6..]);
    assert t[5] == '.';
    assert !IsDigit(t[5]);
  }

  /** The chain as written accepts ten-character ids that are not ten
      digits: a signed one and one with a decimal point. */
  lemma NonDigitIdsPass()
    ensures |"+123456789"| == 10 && IsNumeric("+123456789") && !IsTenDigits("+123456789")
    ensures |"12345.6789"| == 10 && IsNumeric("12345.6789") && !IsTenDigits("12345.6789")
  {
    SignedIdPasses();
    DecimalIdPasses();
  }

  /** `x || null` for a string field. */
  function OrNull(v: Option<string>): (r: Value)
    ensures r == Null <==> !Truthy(v)
    ensures r != Null ==> r == Text(v.value)
  {
    if Truthy(v) then Text(v.value) else Null
  }

  /** `x || null` for a numeric field: 0 becomes NULL too. */
  function NumberOrNull(v: Option<int>): (r: Value)
    ensures r == Null <==> v.None? || v.value == 0
    ensures r != Null ==> r == Number(v.value)
  {
    if v.Some? && v.value != 0 then Number(v.value) else Null
  }

  /** The columns of `users` the handlers write. */
  datatype UserColumn = FirstName | SecondName | ThirdName | LastName | Email | Phone | Address | DateOfBirth | IsActive
  {
    /** The column's SQL name. */
    function Name(): string {
      match this
      case FirstName => "first_name"
      case SecondName => "second_name"
      case ThirdName => "third_name"
      case LastName => "last_name"
      case Email => "email"
      case Phone => "phone"
      case Address => "address"
      case DateOfBirth => "date_of_birth"
      case IsActive => "is_active"
    }
  }

  /** The columns of `students` the handlers write. */
  datatype StudentColumn = SchoolLevel | ParentId | Status | Notes | MemorizedSurah | MemorizedAyah | TargetSurah | TargetAyah
  {
    function Name(): string {
      match this
      case SchoolLevel => "school_level"
      case ParentId => "parent_id"
      case Status => "status"
      case Notes => "notes"
      case MemorizedSurah => "memorized_surah_id"
      case MemorizedAyah => "memorized_ayah_number"
      case TargetSurah => "target_surah_id"
      case TargetAyah => "target_ayah_number"
    }
  }

  type UserRow = map<UserColumn, Value>
  type StudentRow = map<StudentColumn, Value>

  /** The users row a registration inserts: inactive. */
  function NewUser(r: Registration): (row: UserRow)
    ensures IsActive in row && Email in row && Phone in row
    ensures row[IsActive] == Flag(false) && row[Email] == OrNull(r.email) && row[Phone] == OrNull(r.phone)
  {
    map[FirstName := Text(r.firstName), SecondName := Text(r.secondName), ThirdName := Text(r.thirdName),
        LastName := Text(r.lastName), Email := OrNull(r.email), Phone := OrNull(r.phone),
        DateOfBirth := Text(r.birthDate), IsActive := Flag(false)]
  }

  /** The students row: status 'inactive', and the parent id only when the
      parent already exists. */
  function NewStudent(r: Registration, parents: set<string>): (row: StudentRow)
    ensures Status in row && SchoolLevel in row && ParentId in row
    ensures row[Status] == Text("inactive") && row[SchoolLevel] == Text(r.schoolLevel)
    ensures row[ParentId] != Null <==> Truthy(r.parentId) && r.parentId.value in parents
  {
    map[SchoolLevel := Text(r.schoolLevel),
        ParentId := if Truthy(r.parentId) && r.parentId.value in parents then Text(r.parentId.value) else Null,
        Status := Text("inactive")]
  }

  /** The relationship rows a registration writes: one for a non-empty
      parent id, whether or not that parent exists yet. */
  function NewLinks(r: Registration): (links: set<(string, string)>)
    ensures links != {} <==> Truthy(r.parentId)
  {
    if Truthy(r.parentId) then {(r.parentId.value, r.id)} else {}
  }

  /** Some user already has this e-mail address. */
  predicate EmailTaken(users: map<string, UserRow>, email: Option<string>) {
    Truthy(email) && exists u :: u in users && Email in users[u] && users[u][Email] == Text(email.value)
  }

  /** `/\S+@\S+\.\S+/`, unanchored: a non-space character, '@', one or more
      non-space characters, '.', and a non-space character. */
  predicate LooseEmail(s: string) {
    exists at, dot :: 0 < at && at + 1 < dot && dot + 1 < |s| && s[at] == '@' && s[dot] == '.'
      && !IsSpace(s[at - 1]) && !IsSpace(s[dot + 1]) && NoSpaceBetween(s, at, dot)
  }

  predicate NoSpaceBetween(s: string, lo: int, hi: int) {
    forall k :: lo < k < hi && 0 <= k < |s| ==> !IsSpace(s[k])
  }

  /** The update's e-mail check: a non-blank address the pattern misses. */
  predicate BadEmail(email: Option<string>) {
    Truthy(email) && |Trim(email.value)| > 0 && !LooseEmail(email.value)
  }

  /** The update's phone check: a non-blank number that is not `05` and
      eight digits. */
  predicate BadPhone(phone: Option<string>) {
    Truthy(phone) && |Trim(phone.value)| > 0 && !IsMobile(phone.value)
  }

  /** The update body; `None` is a field the request leaves out. */
  datatype StudentUpdate = StudentUpdate(
    firstName: Option<string>, secondName: Option<string>, thirdName: Option<string>, lastName: Option<string>,
    email: Option<string>, phone: Option<string>, address: Option<string>, birthDate: Option<string>,
    schoolLevel: Option<string>, status: Option<string>, notes: Option<string>,
    memorizedSurah: Option<int>, memorizedAyah: Option<int>, targetSurah: Option<int>, targetAyah: Option<int>,
    schoolId: Option<string>, classId: Option<string>)

  function Raw(v: Option<string>): Option<Value> {
    if v.Some? then Some(Text(v.value)) else None
  }

  function Nullable(v: Option<string>): Option<Value> {
    if v.Some? then Some(OrNull(v)) else None
  }

  function NullableNumber(v: Option<int>): Option<Value> {
    if v.Some? then Some(NumberOrNull(v)) else None
  }

  /** The fields of the users UPDATE, in the handler's order; `is_active`
      follows `status`. */
  function UserFields(b: StudentUpdate): seq<Field<UserColumn, Value>> {
    [Field(FirstName, Raw(b.firstName)), Field(SecondName, Raw(b.secondName)),
     Field(ThirdName, Raw(b.thirdName)), Field(LastName, Raw(b.lastName)),
     Field(Email, Nullable(b.email)), Field(Phone, Nullable(b.phone)),
     Field(Address, Nullable(b.address)), Field(DateOfBirth, Nullable(b.birthDate)),
     Field(IsActive, if b.status.Some? then Some(Flag(b.status.value == "active")) else None)]
  }

  /** The fields of the students UPDATE, in the handler's order. */
  function StudentFields(b: StudentUpdate): seq<Field<StudentColumn, Value>> {
    [Field(SchoolLevel, Raw(b.schoolLevel)), Field(Status, Raw(b.status)), Field(Notes, Nullable(b.notes)),
     Field(MemorizedSurah, NullableNumber(b.memorizedSurah)), Field(MemorizedAyah, NullableNumber(b.memorizedAyah)),
     Field(TargetSurah, NullableNumber(b.targetSurah)), Field(TargetAyah, NullableNumber(b.targetAyah))]
  }

  /** Whenever a status is given, the users row's `is_active` becomes
      whether that status is 'active'. */
  lemma StatusSetsActive(row: UserRow, b: StudentUpdate)
    requires b.status.Some?
    ensures var after := Assign(row, Provided(UserFields(b)));
      IsActive in after && after[IsActive] == Flag(b.status.value == "active")
  {
    var fs := UserFields(b);
    assert Provided(fs) == Provided(fs[..8]) + [(IsActive, Flag(b.status.value == "active"))];
  }

  /** The activation guard. `schools` are the school ids of the rows the
      guard's LEFT JOIN returns, in the database's order: none when there is
      no such student, one NULL when the student has no 'enrolled' row. Only
      the first row is read. */
  function ActivationRefused(b: StudentUpdate, schools: seq<Option<string>>): (refused: bool)
    ensures refused ==> b.status == Some("active") && !Truthy(b.schoolId) && !Truthy(b.classId)
    ensures (b.status == Some("active") && !Truthy(b.schoolId) && !Truthy(b.classId)
      && |schools| > 0 && forall i :: 0 <= i < |schools| ==> !Truthy(schools[i])) ==> refused
    ensures |schools| > 0 && Truthy(schools[0]) ==> !refused
    ensures schools == [] ==> !refused
  {
    b.status == Some("active") && !Truthy(b.schoolId) && !Truthy(b.classId)
    && |schools| > 0 && !Truthy(schools[0])
  }

  /** The enrolment table: a status per (student, class), the pair unique. */
  type Enrolments = map<(string, string), string>

  /** The DELETE of the student's 'enrolled' rows followed by the INSERT ...
      ON CONFLICT DO NOTHING into the target class. */
  function Reassigned(m: Enrolments, student: string, target: Option<string>): Enrolments {
    var kept := map k | k in m && !(k.0 == student && m[k] == "enrolled") :: m[k];
    if target.Some? && (student, target.value) !in kept then kept[(student, target.value) := "enrolled"] else kept
  }

  /** Afterwards the student is enrolled in one class at most: the target,
      and only when no row of another status holds that pair already. */
  lemma ReassignedEnrolment(m: Enrolments, student: string, target: Option<string>, c: string)
    ensures var after := Reassigned(m, student, target);
      ((student, c) in after && after[(student, c)] == "enrolled")
      <==> target == Some(c) && !((student, c) in m && m[(student, c)] != "enrolled")
  {
  }

  /** Rows of other students, and the student's rows of another status,
      stay as they were. */
  lemma ReassignedKeeps(m: Enrolments, student: string, target: Option<string>, k: (string, string))
    requires k in m && (k.0 != student || m[k] != "enrolled")
    ensures k in Reassigned(m, student, target) && Reassigned(m, student, target)[k] == m[k]
  {
  }

  /** The class the student is put in: the class given, or else the
      general class of the school given (insert-or-find, handed in as `general`). */
  function Target(b: StudentUpdate, general: Option<string>): (t: Option<string>)
    ensures Truthy(b.classId) ==> t == b.classId
    ensures !Truthy(b.classId) && !Truthy(b.schoolId) ==> t.None?
  {
    if Truthy(b.classId) then b.classId else if Truthy(b.schoolId) then general else None
  }

  datatype Reply = Invalid | Taken | Registered | InvalidEmail | InvalidPhone | NeedsSchool | NotFound | Updated

  /** The checks of PUT /:id before any write, in the handler's order. */
  function UpdateDecision(b: StudentUpdate, schools: seq<Option<string>>, known: bool): (r: Option<Reply>)
    ensures r.None? <==> !BadEmail(b.email) && !BadPhone(b.phone) && !ActivationRefused(b, schools) && known
    ensures BadEmail(b.email) ==> r == Some(InvalidEmail)
  {
    if BadEmail(b.email) then Some(InvalidEmail)
    else if BadPhone(b.phone) then Some(InvalidPhone)
    else if ActivationRefused(b, schools) then Some(NeedsSchool)
    else if !known then Some(NotFound)
    else None
  }

  class StudentStore {
    var users: map<string, UserRow>
    var students: map<string, StudentRow>
    var parents: set<string>
    var links: set<(string, string)>
    var enrolments: Enrolments

    constructor (parents: set<string>)
      ensures this.parents == parents && users == map[] && students == map[] && links == {} && enrolments == map[]
    {
      this.parents := parents;
      users := map[];
      students := map[];
      links := {};
      enrolments := map[];
    }

    /** POST /: 400 on a broken rule; a taken id or e-mail rolls back with
        400; otherwise the inactive user, the inactive student and the
        relationship row are written together. */
    method Register(r: Registration) returns (reply: Reply)
      modifies this
      ensures !Valid(r) ==> reply == Invalid
      ensures Valid(r) ==> (reply == Taken <==> r.id in old(users) || r.id in old(students) || EmailTaken(old(users), r.email))
      ensures Valid(r) && !(r.id in old(users) || r.id in old(students) || EmailTaken(old(users), r.email)) ==>
        reply == Registered
      ensures reply == Registered ==>
        users == old(users)[r.id := NewUser(r)]
        && students == old(students)[r.id := NewStudent(r, old(parents))] && links == old(links) + NewLinks(r)
      ensures reply != Registered ==> users == old(users) && students == old(students) && links == old(links)
      ensures parents == old(parents) && enrolments == old(enrolments)
    {
      if !Valid(r) {
        return Invalid;
      }
      if r.id in users || r.id in students || EmailTaken(users, r.email) {
        return Taken;
      }
      users := users[r.id := NewUser(r)];
      links := links + NewLinks(r);
      students := students[r.id := NewStudent(r, parents)];
      reply := Registered;
    }

    /** PUT /:id. The checks, then the users UPDATE and the students UPDATE,
        each built from the provided fields and run only when there is one,
        then, when a class or a school is named, the enrolment replacement. */
    method Update(id: string, b: StudentUpdate, schools: seq<Option<string>>, general: Option<string>)
      returns (reply: Reply, userQuery: Option<SqlParams.Update<UserColumn, Value>>,
               studentQuery: Option<SqlParams.Update<StudentColumn, Value>>)
      modifies this
      ensures var d := UpdateDecision(b, schools, id in old(students) && id in old(users));
        d.Some? ==>
          reply == d.value && userQuery.None? && studentQuery.None?
          && users == old(users) && students == old(students) && enrolments == old(enrolments)
      ensures var d := UpdateDecision(b, schools, id in old(students) && id in old(users));
        d.None? ==>
          reply == Updated
          && (userQuery.Some? <==> Provided(UserFields(b)) != [])
          && (userQuery.Some? ==> UpdatesBy(userQuery.value, Provided(UserFields(b)), Text(id)))
          && (studentQuery.Some? <==> Provided(StudentFields(b)) != [])
          && (studentQuery.Some? ==> UpdatesBy(studentQuery.value, Provided(StudentFields(b)), Text(id)))
          && users == old(users)[id := Assign(old(users)[id], Provided(UserFields(b)))]
          && students == old(students)[id := Assign(old(students)[id], Provided(StudentFields(b)))]
          && enrolments == if b.classId.Some? || b.schoolId.Some? then Reassigned(old(enrolments), id, Target(b, general)) else old(enrolments)
      ensures parents == old(parents) && links == old(links)
    {
      var d := UpdateDecision(b, schools, id in students && id in users);
      if d.Some? {
        return d.value, None, None;
      }
      userQuery, studentQuery := ApplyUpdate(id, b, general);
      reply := Updated;
    }

    /** The writes of PUT /:id once the checks have passed. */
    method ApplyUpdate(id: string, b: StudentUpdate, general: Option<string>)
      returns (userQuery: Option<SqlParams.Update<UserColumn, Value>>,
               studentQuery: Option<SqlParams.Update<StudentColumn, Value>>)
      requires id in students && id in users
      modifies this
      ensures userQuery.Some? <==> Provided(UserFields(b)) != []
      ensures userQuery.Some? ==> UpdatesBy(userQuery.value, Provided(UserFields(b)), Text(id))
      ensures studentQuery.Some? <==> Provided(StudentFields(b)) != []
      ensures studentQuery.Some? ==> UpdatesBy(studentQuery.value, Provided(StudentFields(b)), Text(id))
      ensures users == old(users)[id := Assign(old(users)[id], Provided(UserFields(b)))]
      ensures students == old(students)[id := Assign(old(students)[id], Provided(StudentFields(b)))]
      ensures enrolments == if b.classId.Some? || b.schoolId.Some? then Reassigned(old(enrolments), id, Target(b, general)) else old(enrolments)
      ensures parents == old(parents) && links == old(links)
    {
      userQuery := BuildUpdate(UserFields(b), Text(id));
      users := users[id := Assign(users[id], Provided(UserFields(b)))];
      studentQuery := BuildUpdate(StudentFields(b), Text(id));
      students := students[id := Assign(students[id], Provided(StudentFields(b)))];
      if b.classId.Some? || b.schoolId.Some? {
        enrolments := Reassigned(enrolments, id, Target(b, general));
      }
    }
  }
}
