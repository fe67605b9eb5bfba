/** The daily points handlers: the accepted point values, who may give,
    change or remove points and for which classes, and the one-row-per-
    (student, teacher, class, semester, date) upsert. Parsed numbers are
    exact reals; NaN is None. */
module PointsRoute {
  import opened Common

  /** `parseFloat(points_given)` passes the range check: a number, 0 to 5,
      in half-point steps. */
  predicate ValidPoints(p: Option<real>) {
    p.Some? && 0.0 <= p.value <= 5.0 && (2.0 * p.value).Floor as real == 2.0 * p.value
  }

  /** The point value `k` half-steps stand for. */
  function Half(k: int): real {
    k as real / 2.0
  }

  /** The accepted values are exactly the eleven halves 0, 0.5, ..., 5. */
  lemma ValidPointsAreHalves(p: real)
    ensures ValidPoints(Some(p)) <==> exists k: int :: 0 <= k <= 10 && p == Half(k)
  {
    if ValidPoints(Some(p)) {
      var k := (2.0 * p).Floor;
      assert 0 <= k <= 10 && p == Half(k);
    }
    if exists k: int :: 0 <= k <= 10 && p == Half(k) {
      var k: int :| 0 <= k <= 10 && p == Half(k);
      assert 2.0 * p == k as real;
    }
  }

  predicate GiverRole(role: string) {
    role == "admin" || role == "administrator" || role == "supervisor" || role == "teacher"
  }

  /** The class facts the handlers query: active teacher assignments, the
      schools of administrators and supervisors, each active class's
      school, and the enrolled students with their account flag. */
  datatype Directory = Directory(
    assignments: set<(string, string)>,
    staffSchool: map<string, string>,
    activeClassSchool: map<string, string>,
    enrolled: map<(string, string), bool>)

  /** The per-role class check of POST: a teacher needs an assignment to
      the class, an administrator or supervisor an active class of their
      own school; an admin needs nothing. */
  predicate MayGiveIn(role: string, userId: string, classId: string, d: Directory) {
    if role == "teacher" then (userId, classId) in d.assignments
    else if role == "administrator" || role == "supervisor" then
      userId in d.staffSchool && classId in d.activeClassSchool && d.activeClassSchool[classId] == d.staffSchool[userId]
    else true
  }

  datatype PointsKey = PointsKey(studentId: string, teacherId: string, classId: string, semesterId: string, date: string)

  datatype PointsRow = PointsRow(key: PointsKey, points: real, notes: string)

  /** The points field: undefined, or a value `parseFloat` reads (None for
      NaN). */
  datatype Field = Undefined | Given(parsed: Option<real>)

  datatype Reply = Forbidden | BadRequest | NotEnrolled | InactiveStudent | NotFound | Saved(id: nat) | Removed

  /** Every required field is there: the ids and the date non-empty, the
      points not undefined. */
  predicate Complete(key: PointsKey, points: Field) {
    |key.studentId| > 0 && |key.classId| > 0 && |key.semesterId| > 0 && |key.date| > 0 && points.Given?
  }

  /** The student is enrolled in the class and their account is active. */
  predicate ActiveStudentOf(key: PointsKey, d: Directory) {
    (key.studentId, key.classId) in d.enrolled && d.enrolled[(key.studentId, key.classId)]
  }

  /** The decision of POST before any write, in the handler's order:
      role, required fields, range, class check, enrolment, active
      account. None means the upsert goes ahead. */
  function GiveDecision(role: string, userId: string, key: PointsKey, points: Field, d: Directory): (r: Option<Reply>)
    ensures r.None? <==> (GiverRole(role) && Complete(key, points) && ValidPoints(points.parsed)
      && MayGiveIn(role, userId, key.classId, d) && ActiveStudentOf(key, d))
    ensures !GiverRole(role) ==> r == Some(Forbidden)
    ensures GiverRole(role) && points.Given? && !ValidPoints(points.parsed) ==> r == Some(BadRequest)
  {
    if !GiverRole(role) then Some(Forbidden)
    else if |key.studentId| == 0 || |key.classId| == 0 || |key.semesterId| == 0 || |key.date| == 0 || points.Undefined? then
      Some(BadRequest)
    else if !ValidPoints(points.parsed) then Some(BadRequest)
    else if !MayGiveIn(role, userId, key.classId, d) then Some(Forbidden)
    else if (key.studentId, key.classId) !in d.enrolled then Some(NotEnrolled)
    else if !d.enrolled[(key.studentId, key.classId)] then Some(InactiveStudent)
    else None
  }

  /** A teacher may change or remove only the points they gave. */
  predicate MayEdit(role: string, userId: string, row: PointsRow) {
    role != "teacher" || row.key.teacherId == userId
  }

  /** GET /student/:id: a student sees only their own points, and a teacher
      only those of a student enrolled in a class the teacher is actively
      assigned to (`taught` holds those (teacher, student) pairs); any other
      role sees every student's points. */
  function MayView(role: Option<string>, userId: Option<string>, studentId: string,
                   taught: set<(Option<string>, string)>): (ok: bool)
    ensures role == Some("student") ==> (ok <==> userId == Some(studentId))
    ensures role == Some("teacher") ==> (ok <==> (userId, studentId) in taught)
    ensures role != Some("student") && role != Some("teacher") ==> ok
  {
    if role == Some("student") && userId != Some(studentId) then false
    else if role == Some("teacher") then (userId, studentId) in taught
    else true
  }

  /** One row per key (the table's UNIQUE constraint). */
  predicate UniqueKeys(rows: map<nat, PointsRow>) {
    forall a, b :: a in rows && b in rows && a != b ==> rows[a].key != rows[b].key
  }

  predicate HasKey(rows: map<nat, PointsRow>, k: PointsKey) {
    exists id :: id in rows && rows[id].key == k
  }

  class PointsTable {
    var rows: map<nat, PointsRow>
    var nextId: nat

    ghost predicate Valid()
      reads this
    {
      (forall id :: id in rows ==> id < nextId) && UniqueKeys(rows)
    }

    constructor ()
      ensures Valid() && rows == map[]
    {
      rows := map[];
      nextId := 1;
    }

    /** POST /: after the checks, the row of the key (the giver is the
        signed-in user) is updated when it exists, otherwise inserted. */
    method Give(role: string, userId: string, studentId: string, classId: string, semesterId: string, date: string,
                points: Field, notes: string, d: Directory) returns (reply: Reply)
      requires Valid()
      modifies this
      ensures Valid()
      ensures var key := PointsKey(studentId, userId, classId, semesterId, date);
        GiveDecision(role, userId, key, points, d).Some? ==> reply == GiveDecision(role, userId, key, points, d).value && rows == old(rows)
      ensures var key := PointsKey(studentId, userId, classId, semesterId, date);
        GiveDecision(role, userId, key, points, d).None? ==>
          reply.Saved? && rows == old(rows)[reply.id := PointsRow(key, points.parsed.value, notes)]
          && (HasKey(old(rows), key) <==> reply.id in old(rows))
    {
      var key := PointsKey(studentId, userId, classId, semesterId, date);
      var decision := GiveDecision(role, userId, key, points, d);
      if decision.Some? {
        return decision.value;
      }
      var row := PointsRow(key, points.parsed.value, notes);
      if id :| id in rows && rows[id].key == key {
        rows := rows[id := row];
        reply := Saved(id);
      } else {
        rows := rows[nextId := row];
        reply := Saved(nextId);
        nextId := nextId + 1;
      }
    }

    /** PUT /:id: the role check, the range check, then a teacher must own
        the row (403) and anyone else needs it to exist (404). */
    method Change(role: string, userId: string, id: nat, points: Option<real>, notes: string) returns (reply: Reply)
      requires Valid()
      modifies this
      ensures Valid()
      ensures !GiverRole(role) ==> reply == Forbidden
      ensures GiverRole(role) && !ValidPoints(points) ==> reply == BadRequest
      ensures reply.Saved? <==> GiverRole(role) && ValidPoints(points) && id in old(rows) && MayEdit(role, userId, old(rows)[id])
      ensures reply.Saved? ==> rows == old(rows)[id := old(rows)[id].(points := points.value, notes := notes)]
      ensures !reply.Saved? ==> rows == old(rows)
    {
      if !GiverRole(role) {
        return Forbidden;
      }
      if !ValidPoints(points) {
        return BadRequest;
      }
      if role == "teacher" && !(id in rows && rows[id].key.teacherId == userId) {
        return Forbidden;
      }
      if id !in rows {
        return NotFound;
      }
      rows := rows[id := rows[id].(points := points.value, notes := notes)];
      reply := Saved(id);
    }

    /** DELETE /:id: the role check, a teacher must own the row (403), and
        404 when there is no such row. */
    method Remove(role: string, userId: string, id: nat) returns (reply: Reply)
      requires Valid()
      modifies this
      ensures Valid()
      ensures !GiverRole(role) ==> reply == Forbidden
      ensures reply == Removed <==> GiverRole(role) && id in old(rows) && MayEdit(role, userId, old(rows)[id])
      ensures reply == Removed ==> rows == old(rows) - {id}
      ensures reply != Removed ==> rows == old(rows)
    {
      if !GiverRole(role) {
        return Forbidden;
      }
      if role == "teacher" && !(id in rows && rows[id].key.teacherId == userId) {
        return Forbidden;
      }
      if id !in rows {
        return NotFound;
      }
      rows := rows - {id};
      reply := Removed;
    }
  }
}
