/** The grades routes: the "surah:ayah" / "surah:end" references that the
    POST and PUT handlers build and the class listing parses back, the
    POST upsert keyed by (student, course, semester), and the role and
    teacher checks in front of every write. The table is a sequence of rows;
    the active teacher assignments and the enrolled students are sets. */
module GradesRoute {
  import opened Common

  /** The parsed start reference of a listed grade. */
  datatype StartPoint = StartPoint(surah: string, ayah: int)

  /** The parsed end reference; `ayah` is None for the "end" marker (null). */
  datatype EndPoint = EndPoint(surah: string, ayah: Option<int>)

  /** The text after the first ':' up to the next one, or None when the
      reference has no ':' (the destructured half is `undefined`). */
  function SecondPart(ref: string): (p: Option<string>)
    ensures p.Some? <==> ':' in ref
    ensures p.Some? ==> ':' !in p.value
  {
    var parts := Split(ref, ':');
    if |parts| >= 2 then
      assert ':' in ref by { SplitOneMeansNoColon(ref); }
      Some(parts[1])
    else
      assert ':' !in ref by { SplitOneMeansNoColon(ref); }
      None
  }

  lemma SplitOneMeansNoColon(ref: string)
    ensures |Split(ref, ':')| == 1 <==> ':' !in ref
  {
    match IndexOf(ref, ':')
    case None =>
    case Some(i) =>
  }

  /** `[fromSurah, fromAyah] = start_reference.split(':')`, with
      `parseInt(fromAyah) || 1`: the surah is the text before the first ':'
      and the ayah is never 0. */
  function ParseStart(ref: string): (p: StartPoint)
    ensures ':' !in p.surah && p.surah <= ref
    ensures |p.surah| < |ref| ==> ref[|p.surah|] == ':'
    ensures p.ayah != 0
  {
    var parts := Split(ref, ':');
    PrefixOfSplit(ref);
    StartPoint(parts[0], match SecondPart(ref) case Some(a) => ParseIntOr(a, 1) case None => 1)
  }

  /** `[toSurah, toAyah] = end_reference.split(':')`: "end" gives null,
      anything else `parseInt(toAyah) || 1`. */
  function ParseEnd(ref: string): (p: EndPoint)
    ensures ':' !in p.surah && p.surah <= ref
    ensures p.ayah.None? <==> SecondPart(ref) == Some("end")
    ensures p.ayah.Some? ==> p.ayah.value != 0
  {
    PrefixOfSplit(ref);
    EndPoint(Split(ref, ':')[0],
      match SecondPart(ref)
      case Some(a) => if a == "end" then None else Some(ParseIntOr(a, 1))
      case None => Some(1))
  }

  lemma PrefixOfSplit(ref: string)
    ensures Split(ref, ':')[0] <= ref
    ensures |Split(ref, ':')[0]| < |ref| ==> ref[|Split(ref, ':')[0]|] == ':'
  {
    match IndexOf(ref, ':')
    case None =>
    case Some(i) =>
  }

  /** POST: `start_reference || (from_surah ? from_surah + ":" + (from_ayah || 1) : null)`. */
  function PostStartRef(startReference: Option<string>, fromSurah: Option<string>, fromAyah: Option<nat>): (r: Option<string>)
    ensures Truthy(startReference) ==> r == startReference
    ensures r.None? <==> !Truthy(startReference) && !Truthy(fromSurah)
  {
    if Truthy(startReference) then startReference
    else if Truthy(fromSurah) then
      Some(fromSurah.value + ":" + NatToString(if TruthyNat(fromAyah) then fromAyah.value else 1))
    else None
  }

  /** POST: `end_reference || (to_surah ? to_surah + ":" + (to_ayah || 'end') : null)`. */
  function PostEndRef(endReference: Option<string>, toSurah: Option<string>, toAyah: Option<nat>): (r: Option<string>)
    ensures Truthy(endReference) ==> r == endReference
    ensures r.None? <==> !Truthy(endReference) && !Truthy(toSurah)
  {
    if Truthy(endReference) then endReference
    else if Truthy(toSurah) then
      Some(toSurah.value + ":" + (if TruthyNat(toAyah) then NatToString(toAyah.value) else "end"))
    else None
  }

  /** PUT: `ref || (surah && ayah ? surah + ":" + ayah : null)`, for both
      ends; unlike POST no default ayah is filled in. */
  function PutRef(reference: Option<string>, surah: Option<string>, ayah: Option<nat>): (r: Option<string>)
    ensures Truthy(reference) ==> r == reference
    ensures !Truthy(reference) ==> (r.Some? <==> Truthy(surah) && TruthyNat(ayah))
  {
    if Truthy(reference) then reference
    else if Truthy(surah) && TruthyNat(ayah) then Some(surah.value + ":" + NatToString(ayah.value))
    else None
  }

  /** `surah + ":" + tail` splits back into its two halves. */
  lemma SplitPair(surah: string, tail: string)
    requires ':' !in surah && ':' !in tail
    ensures Split(surah + ":" + tail, ':') == [surah, tail]
  {
    SplitJoin([surah, tail], ':');
    assert Join([surah, tail], ':') == surah + ":" + tail by {
      assert Join([surah, tail][1..], ':') == tail;
    }
  }

  lemma DigitsHaveNoColon(n: nat)
    ensures ':' !in NatToString(n)
  {
    var s := NatToString(n);
    assert forall i :: 0 <= i < |s| ==> IsDigit(s[i]);
  }

  /** The reference POST builds from a surah and an optional ayah parses
      back, with the listing's parser, to that surah and that ayah, or to
      ayah 1 when none was given. */
  lemma PostStartRoundTrip(surah: string, ayah: Option<nat>)
    requires |surah| > 0 && ':' !in surah
    ensures PostStartRef(None, Some(surah), ayah).Some?
    ensures ParseStart(PostStartRef(None, Some(surah), ayah).value)
      == StartPoint(surah, if TruthyNat(ayah) then ayah.value else 1)
  {
    var n: nat := if TruthyNat(ayah) then ayah.value else 1;
    DigitsHaveNoColon(n);
    SplitPair(surah, NatToString(n));
    ParseIntOfNatToString(n);
  }

  /** The end reference POST builds parses back to the surah and to the
      given ayah, or to null ("end") when no ayah was given. */
  lemma PostEndRoundTrip(surah: string, ayah: Option<nat>)
    requires |surah| > 0 && ':' !in surah
    ensures PostEndRef(None, Some(surah), ayah).Some?
    ensures ParseEnd(PostEndRef(None, Some(surah), ayah).value)
      == EndPoint(surah, if TruthyNat(ayah) then Some(ayah.value as int) else None)
  {
    if TruthyNat(ayah) {
      DigitsHaveNoColon(ayah.value);
      SplitPair(surah, NatToString(ayah.value));
      ParseIntOfNatToString(ayah.value);
    } else {
      SplitPair(surah, "end");
    }
  }

  /** When both halves are given, PUT writes the same reference as POST. */
  lemma PutAgreesWithPost(reference: Option<string>, surah: Option<string>, ayah: Option<nat>)
    requires Truthy(surah) && TruthyNat(ayah)
    ensures PutRef(reference, surah, ayah) == PostStartRef(reference, surah, ayah)
  {
  }

  /** A row of the grades table. `semesterId` is nullable. */
  datatype GradeRow = GradeRow(
    id: nat, studentId: string, courseId: int, semesterId: Option<int>, classId: Option<int>,
    gradeValue: Option<int>, maxGrade: int, gradeType: string,
    startReference: Option<string>, endReference: Option<string>, notes: Option<string>, dateGraded: string)

  /** A listed grade: the row plus the parsed references and `score`. */
  datatype Listed = Listed(row: GradeRow, start: Option<StartPoint>, end: Option<EndPoint>, score: Option<int>)

  /** The class listing's per-row mapping: references are parsed only when
      present, and `score` always mirrors `grade_value`. */
  function ListGrade(g: GradeRow): (l: Listed)
    ensures l.row == g && l.score == g.gradeValue
    ensures l.start.Some? <==> Truthy(g.startReference)
    ensures l.end.Some? <==> Truthy(g.endReference)
    ensures l.start.Some? ==> l.start.value.ayah != 0
  {
    Listed(g,
      if Truthy(g.startReference) then Some(ParseStart(g.startReference.value)) else None,
      if Truthy(g.endReference) then Some(ParseEnd(g.endReference.value)) else None,
      g.gradeValue)
  }

  /** The POST body, with the fields it uses. */
  datatype GradeInput = GradeInput(
    studentId: string, courseId: int, semesterId: Option<int>, classId: Option<int>,
    score: Option<int>, gradeValue: Option<int>, maxGrade: Option<int>, gradeType: Option<string>,
    fromSurah: Option<string>, fromAyah: Option<nat>, toSurah: Option<string>, toAyah: Option<nat>,
    startReference: Option<string>, endReference: Option<string>, notes: Option<string>, gradeDate: Option<string>)

  /** `grade_value || score`, as written: a grade value of 0 is falsy, so
      the handler falls through to `score`. */
  function GradeValueAsWritten(gradeValue: Option<int>, score: Option<int>): (v: Option<int>)
    ensures gradeValue.Some? && gradeValue.value != 0 ==> v == gradeValue
    ensures gradeValue.None? || gradeValue == Some(0) ==> v == score
  {
    if gradeValue.Some? && gradeValue.value != 0 then gradeValue else score
  }

  /** A grade edited to 0 with no legacy `score` is written as null. */
  lemma ZeroGradeErased()
    ensures GradeValueAsWritten(Some(0), None) == None
  {
  }

  /** The value the handlers evidently mean to store: `grade_value` whenever
      it is present, 0 included, and `score` only when it is absent. */
  function GradeValue(gradeValue: Option<int>, score: Option<int>): (v: Option<int>)
    ensures gradeValue.Some? ==> v == gradeValue
    ensures gradeValue.None? ==> v == score
  {
    if gradeValue.Some? then gradeValue else score
  }

  /** The two agree on every input except a zero grade value. */
  lemma GradeValueDiffersOnlyAtZero(gradeValue: Option<int>, score: Option<int>)
    ensures GradeValue(gradeValue, score) != GradeValueAsWritten(gradeValue, score)
      ==> gradeValue == Some(0) && score != Some(0)
  {
  }

  /** `max_grade || 100`. */
  function MaxGradeOr100(maxGrade: Option<int>): (m: int)
    ensures maxGrade.Some? && maxGrade.value != 0 ==> m == maxGrade.value
    ensures maxGrade.None? || maxGrade == Some(0) ==> m == 100
  {
    if maxGrade.Some? && maxGrade.value != 0 then maxGrade.value else 100
  }

  /** The columns an UPDATE writes. */
  datatype Values = Values(
    gradeValue: Option<int>, maxGrade: int, classId: Option<int>,
    startReference: Option<string>, endReference: Option<string>, notes: Option<string>, dateGraded: string)

  /** `grade_date || now`. */
  function DateOr(gradeDate: Option<string>, now: string): string {
    if Truthy(gradeDate) then gradeDate.value else now
  }

  /** What POST writes: references with the default ayah filled in. */
  function PostValues(input: GradeInput, now: string): Values {
    Values(GradeValue(input.gradeValue, input.score), MaxGradeOr100(input.maxGrade), input.classId,
      PostStartRef(input.startReference, input.fromSurah, input.fromAyah),
      PostEndRef(input.endReference, input.toSurah, input.toAyah),
      input.notes, DateOr(input.gradeDate, now))
  }

  /** What PUT writes: references only when both halves are given. */
  function PutValues(input: GradeInput, now: string): Values {
    Values(GradeValue(input.gradeValue, input.score), MaxGradeOr100(input.maxGrade), input.classId,
      PutRef(input.startReference, input.fromSurah, input.fromAyah),
      PutRef(input.endReference, input.toSurah, input.toAyah),
      input.notes, DateOr(input.gradeDate, now))
  }

  /** The rows an UPDATE or DELETE addresses. In SQL `semester_id = NULL`
      is never true, so a key with no semester addresses no row. */
  datatype Target = ByKey(studentId: string, courseId: int, semesterId: Option<int>) | ById(id: nat)

  predicate Hits(g: GradeRow, t: Target) {
    match t
    case ByKey(s, c, sem) => sem.Some? && g.studentId == s && g.courseId == c && g.semesterId == sem
    case ById(id) => g.id == id
  }

  function Revise(g: GradeRow, v: Values): GradeRow {
    g.(gradeValue := v.gradeValue, maxGrade := v.maxGrade, classId := v.classId,
       startReference := v.startReference, endReference := v.endReference,
       notes := v.notes, dateGraded := v.dateGraded)
  }

  /** `UPDATE grades SET ... WHERE <t>`: every addressed row is revised,
      every other row is kept, and the order is unchanged. */
  function ReviseAll(rows: seq<GradeRow>, t: Target, v: Values): (r: seq<GradeRow>)
    ensures |r| == |rows|
    ensures forall i :: 0 <= i < |rows| ==> r[i] == (if Hits(rows[i], t) then Revise(rows[i], v) else rows[i])
  {
    if rows == [] then [] else [if Hits(rows[0], t) then Revise(rows[0], v) else rows[0]] + ReviseAll(rows[1..], t, v)
  }

  /** `DELETE FROM grades WHERE id = $1`. */
  function DeleteById(rows: seq<GradeRow>, id: nat): (r: seq<GradeRow>)
    ensures forall g :: g in r <==> g in rows && g.id != id
    ensures |r| <= |rows|
  {
    if rows == [] then []
    else if rows[0].id == id then DeleteById(rows[1..], id)
    else [rows[0]] + DeleteById(rows[1..], id)
  }

  /** The first addressed row, if any (`result.rows[0]`). */
  function FirstHit(rows: seq<GradeRow>, t: Target): (r: Option<nat>)
    ensures r.None? <==> forall i :: 0 <= i < |rows| ==> !Hits(rows[i], t)
    ensures r.Some? ==> r.value < |rows| && Hits(rows[r.value], t)
  {
    if rows == [] then None
    else if Hits(rows[0], t) then Some(0)
    else match FirstHit(rows[1..], t)
      case None => None
      case Some(i) => Some(i + 1)
  }

  function KeyOf(input: GradeInput): Target {
    ByKey(input.studentId, input.courseId, input.semesterId)
  }

  /** The row POST inserts when no row has its key. */
  function NewRow(input: GradeInput, id: nat, now: string): GradeRow {
    var v := PostValues(input, now);
    GradeRow(id, input.studentId, input.courseId, input.semesterId, v.classId, v.gradeValue, v.maxGrade,
      if Truthy(input.gradeType) then input.gradeType.value else "test",
      v.startReference, v.endReference, v.notes, v.dateGraded)
  }

  /** The POST upsert: update the rows of (student, course, semester) when
      one exists, otherwise append a new row with the next id. */
  function Upsert(rows: seq<GradeRow>, input: GradeInput, nextId: nat, now: string): seq<GradeRow> {
    if FirstHit(rows, KeyOf(input)).Some? then ReviseAll(rows, KeyOf(input), PostValues(input, now))
    else rows + [NewRow(input, nextId, now)]
  }

  /** No two rows with a semester share (student, course, semester). */
  predicate UniqueKeys(rows: seq<GradeRow>) {
    forall i, j :: 0 <= i < j < |rows| && rows[i].semesterId.Some? ==>
      (rows[i].studentId, rows[i].courseId, rows[i].semesterId) != (rows[j].studentId, rows[j].courseId, rows[j].semesterId)
  }

  /** After POST the key's row holds exactly the posted values, and every
      row of another key is as before. */
  lemma UpsertStores(rows: seq<GradeRow>, input: GradeInput, nextId: nat, now: string)
    ensures var r := Upsert(rows, input, nextId, now);
      && |rows| <= |r| <= |rows| + 1
      && (forall i :: 0 <= i < |rows| && !Hits(rows[i], KeyOf(input)) ==> r[i] == rows[i])
      && (forall i :: 0 <= i < |r| && Hits(r[i], KeyOf(input)) ==> Revise(r[i], PostValues(input, now)) == r[i])
  {
  }

  /** Posting for a key that has a semester never creates a second row for
      it. */
  lemma {:induction false} UpsertKeepsKeysUnique(rows: seq<GradeRow>, input: GradeInput, nextId: nat, now: string)
    requires UniqueKeys(rows)
    ensures UniqueKeys(Upsert(rows, input, nextId, now))
  {
    var r := Upsert(rows, input, nextId, now);
    if FirstHit(rows, KeyOf(input)).Some? {
      assert forall i :: 0 <= i < |r| ==>
        (r[i].studentId, r[i].courseId, r[i].semesterId) == (rows[i].studentId, rows[i].courseId, rows[i].semesterId);
    } else {
      forall i, j | 0 <= i < j < |r| && r[i].semesterId.Some?
        ensures (r[i].studentId, r[i].courseId, r[i].semesterId) != (r[j].studentId, r[j].courseId, r[j].semesterId)
      {
        if j == |rows| {
          assert !Hits(rows[i], KeyOf(input));
        }
      }
    }
  }

  /** With no semester the existence check never matches, so every POST
      appends a row, duplicates included. */
  lemma NullSemesterAlwaysInserts(rows: seq<GradeRow>, input: GradeInput, nextId: nat, now: string)
    requires input.semesterId.None?
    ensures |Upsert(rows, input, nextId, now)| == |rows| + 1
  {
  }

  /** Posting the same grade twice leaves the table as one post did. */
  lemma {:induction false} UpsertIdempotent(rows: seq<GradeRow>, input: GradeInput, nextId: nat, now: string)
    requires input.semesterId.Some?
    ensures Upsert(Upsert(rows, input, nextId, now), input, nextId + 1, now) == Upsert(rows, input, nextId, now)
  {
    var t := KeyOf(input);
    var v := PostValues(input, now);
    var once := Upsert(rows, input, nextId, now);
    if FirstHit(rows, t).None? {
      assert Hits(once[|rows|], t);
    } else {
      var k := FirstHit(rows, t).value;
      assert Hits(once[k], t);
    }
    var twice := ReviseAll(once, t, v);
    assert twice == Upsert(once, input, nextId + 1, now);
    assert forall i :: 0 <= i < |once| ==> twice[i] == once[i] by {
      UpsertStores(rows, input, nextId, now);
    }
  }

  /** The roles that may write grades. */
  predicate WriterRole(role: string) {
    role == "admin" || role == "administrator" || role == "teacher"
  }

  /** Active teacher assignments (teacher, class) and enrolled students
      (student, class). */
  datatype Access = Access(assignments: set<(int, int)>, enrolled: set<(string, int)>)

  /** The teacher checks: an active assignment to the class and the
      student enrolled in it. A null class matches no assignment. */
  predicate TeachesStudent(access: Access, teacherId: int, classId: Option<int>, studentId: string) {
    classId.Some? && (teacherId, classId.value) in access.assignments && (studentId, classId.value) in access.enrolled
  }

  predicate MayGrade(role: string, userId: int, classId: Option<int>, studentId: string, access: Access) {
    WriterRole(role) && (role == "teacher" ==> TeachesStudent(access, userId, classId, studentId))
  }

  /** A teacher gets past the checks only for a student enrolled
      in a class the teacher is assigned to; the other writer roles are not
      checked against classes at all. */
  lemma TeacherGradesOnlyOwnStudents(role: string, userId: int, classId: Option<int>, studentId: string, access: Access)
    ensures MayGrade(role, userId, classId, studentId, access) && role == "teacher" ==>
      exists c :: classId == Some(c) && (userId, c) in access.assignments && (studentId, c) in access.enrolled
    ensures role == "admin" || role == "administrator" ==> MayGrade(role, userId, classId, studentId, access)
    ensures !WriterRole(role) ==> !MayGrade(role, userId, classId, studentId, access)
  {
    if MayGrade(role, userId, classId, studentId, access) && role == "teacher" {
      var c := classId.value;
      assert (userId, c) in access.assignments && (studentId, c) in access.enrolled;
    }
  }

  /** A row with the id exists and, for a teacher, its stored class and
      student pass the teacher checks. */
  predicate EditableIn(rows: seq<GradeRow>, role: string, userId: int, id: nat, access: Access) {
    exists i :: 0 <= i < |rows| && rows[i].id == id
      && (role == "teacher" ==> TeachesStudent(access, userId, rows[i].classId, rows[i].studentId))
  }

  datatype Reply = Forbidden | NotFound | Saved(row: GradeRow) | Deleted

  /** Ids below `nextId` (the serial counter) and distinct. */
  predicate Consistent(rows: seq<GradeRow>, nextId: nat) {
    && (forall i :: 0 <= i < |rows| ==> rows[i].id < nextId)
    && (forall i, j :: 0 <= i < j < |rows| ==> rows[i].id != rows[j].id)
  }

  /** An UPDATE changes no id and no (student, course, semester) key. */
  lemma ReviseAllKeepsConsistent(rows: seq<GradeRow>, nextId: nat, t: Target, v: Values)
    requires Consistent(rows, nextId)
    ensures Consistent(ReviseAll(rows, t, v), nextId)
    ensures UniqueKeys(rows) ==> UniqueKeys(ReviseAll(rows, t, v))
  {
    var r := ReviseAll(rows, t, v);
    assert forall i :: 0 <= i < |r| ==>
      r[i].id == rows[i].id && (r[i].studentId, r[i].courseId, r[i].semesterId) == (rows[i].studentId, rows[i].courseId, rows[i].semesterId);
  }

  /** A row appended with the next id keeps the ids distinct and below the
      advanced counter. */
  lemma AppendKeepsConsistent(rows: seq<GradeRow>, nextId: nat, row: GradeRow)
    requires Consistent(rows, nextId) && row.id == nextId
    ensures Consistent(rows + [row], nextId + 1)
  {
  }

  class GradesTable {
    var rows: seq<GradeRow>
    var nextId: nat

    ghost predicate Valid()
      reads this
    {
      Consistent(rows, nextId)
    }

    constructor ()
      ensures Valid() && rows == []
    {
      rows := [];
      nextId := 1;
    }

    /** POST /: the role check, the teacher checks on the posted class and
        student, then the upsert. */
    method Post(role: string, userId: int, input: GradeInput, access: Access, now: string) returns (reply: Reply)
      requires Valid()
      modifies this
      ensures Valid()
      ensures UniqueKeys(old(rows)) ==> UniqueKeys(rows)
      ensures !MayGrade(role, userId, input.classId, input.studentId, access) ==> reply == Forbidden && unchanged(this)
      ensures MayGrade(role, userId, input.classId, input.studentId, access) ==>
        rows == Upsert(old(rows), input, old(nextId), now) && reply.Saved? && reply.row in rows
    {
      if !MayGrade(role, userId, input.classId, input.studentId, access) {
        return Forbidden;
      }
      var t := KeyOf(input);
      var v := PostValues(input, now);
      match FirstHit(rows, t) {
        case Some(k) =>
          ReviseAllKeepsConsistent(rows, nextId, t, v);
          rows := ReviseAll(rows, t, v);
          reply := Saved(rows[k]);
        case None =>
          var row := NewRow(input, nextId, now);
          if UniqueKeys(rows) {
            UpsertKeepsKeysUnique(rows, input, nextId, now);
          }
          AppendKeepsConsistent(rows, nextId, row);
          rows := rows + [row];
          nextId := nextId + 1;
          reply := Saved(row);
      }
    }

    /** PUT /:id. A teacher is checked against the class and student the
        stored grade already has (404 when there is none); the update is by
        id, and 404 when no row has it. */
    method Put(role: string, userId: int, id: nat, input: GradeInput, access: Access, now: string) returns (reply: Reply)
      requires Valid()
      modifies this
      ensures Valid()
      ensures UniqueKeys(old(rows)) ==> UniqueKeys(rows)
      ensures !WriterRole(role) ==> reply == Forbidden
      ensures reply.Saved? <==> WriterRole(role) && EditableIn(old(rows), role, userId, id, access)
      ensures reply.Saved? ==> rows == ReviseAll(old(rows), ById(id), PutValues(input, now)) && reply.row in rows
      ensures !reply.Saved? ==> unchanged(this)
    {
      if !WriterRole(role) {
        return Forbidden;
      }
      var hit := FirstHit(rows, ById(id));
      if hit.None? {
        return NotFound;
      }
      var k := hit.value;
      if role == "teacher" && !TeachesStudent(access, userId, rows[k].classId, rows[k].studentId) {
        return Forbidden;
      }
      ReviseAllKeepsConsistent(rows, nextId, ById(id), PutValues(input, now));
      rows := ReviseAll(rows, ById(id), PutValues(input, now));
      reply := Saved(rows[k]);
    }

    /** DELETE /:id, with the same checks as PUT. */
    method Delete(role: string, userId: int, id: nat, access: Access) returns (reply: Reply)
      requires Valid()
      modifies this
      ensures Valid()
      ensures UniqueKeys(old(rows)) ==> UniqueKeys(rows)
      ensures !WriterRole(role) ==> reply == Forbidden
      ensures reply == Deleted <==> WriterRole(role) && EditableIn(old(rows), role, userId, id, access)
      ensures reply == Deleted ==> rows == DeleteById(old(rows), id)
      ensures reply != Deleted ==> unchanged(this)
    {
      if !WriterRole(role) {
        return Forbidden;
      }
      var hit := FirstHit(rows, ById(id));
      if hit.None? {
        return NotFound;
      }
      var k := hit.value;
      if role == "teacher" && !TeachesStudent(access, userId, rows[k].classId, rows[k].studentId) {
        return Forbidden;
      }
      DeleteKeepsConsistent(rows, nextId, id);
      if UniqueKeys(rows) {
        DeleteKeepsKeysUnique(rows, id);
      }
      rows := DeleteById(rows, id);
      reply := Deleted;
    }
  }

  lemma {:induction false} DeleteKeepsConsistent(rows: seq<GradeRow>, nextId: nat, id: nat)
    requires Consistent(rows, nextId)
    ensures Consistent(DeleteById(rows, id), nextId)
    decreases |rows|
  {
    if rows != [] {
      DeleteKeepsConsistent(rows[1..], nextId, id);
      var rest := DeleteById(rows[1..], id);
      if rows[0].id != id {
        var r := [rows[0]] + rest;
        forall j | 1 <= j < |r|
          ensures r[0].id != r[j].id
        {
          assert r[j] in rows[1..];
        }
      }
    }
  }

  lemma {:induction false} DeleteKeepsKeysUnique(rows: seq<GradeRow>, id: nat)
    requires UniqueKeys(rows)
    ensures UniqueKeys(DeleteById(rows, id))
    decreases |rows|
  {
    if rows != [] {
      assert UniqueKeys(rows[1..]);
      DeleteKeepsKeysUnique(rows[1..], id);
      var rest := DeleteById(rows[1..], id);
      if rows[0].id != id {
        var r := [rows[0]] + rest;
        forall j | 1 <= j < |r| && r[0].semesterId.Some?
          ensures (r[0].studentId, r[0].courseId, r[0].semesterId) != (r[j].studentId, r[j].courseId, r[j].semesterId)
        {
          assert r[j] in rows[1..];
        }
      }
    }
  }
}
