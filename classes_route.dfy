/** The class handlers: the surah-name lookup they share with the class
    pages, the choice of a student's most advanced memorisation point from
    the memorisation grades, the class grade entry, and the replacement of
    a class's teacher assignments with one primary teacher. */
module ClassesRoute {
  import opened Common
  import opened Mushaf
  import ClassUtils
  import GradesRoute
  import AttendanceRoute

  /** The handlers' `getSurahIdFromName` is the same 114-entry map as the
      pages': every surah's name gives its mushaf id and nothing else gives
      an id. */
  lemma SurahIdFromNameIsMushafOrder()
    ensures forall id :: IsSurahId(id) ==> ClassUtils.SurahIdFromName(Name(id)) == Some(id)
    ensures forall s :: ClassUtils.SurahIdFromName(s).Some? ==> exists id :: IsSurahId(id) && Name(id) == s
  {
    forall id | IsSurahId(id)
      ensures ClassUtils.SurahIdFromName(Name(id)) == Some(id)
    {
      ClassUtils.SurahNameIdRoundTrip(id);
    }
  }

  /** A memorisation grade with both references present. */
  datatype MemorizationGrade = MemorizationGrade(startReference: string, endReference: string)

  /** A memorisation point: the surah id and the ayah reached in it. */
  datatype Point = Point(surah: int, ayah: int)

  /** A lower surah id is further along; within a surah, a higher ayah. */
  predicate Better(p: Point, q: Point) {
    p.surah < q.surah || (p.surah == q.surah && p.ayah > q.ayah)
  }

  /** The end point a grade contributes: both references split into exactly
      two parts, both surah names known, and `parseInt` of the end ayah
      neither NaN nor 0. */
  function EndPointOf(g: MemorizationGrade): (p: Option<Point>)
    ensures p.Some? ==> IsSurahId(p.value.surah) && p.value.ayah != 0
  {
    var startRef := Split(g.startReference, ':');
    var endRef := Split(g.endReference, ':');
    if |startRef| == 2 && |endRef| == 2 then
      var startSurah := ClassUtils.SurahIdFromName(startRef[0]);
      var endSurah := ClassUtils.SurahIdFromName(endRef[0]);
      var endAyah := ParseInt(endRef[1]);
      if startSurah.Some? && endSurah.Some? && endAyah.Some? && endAyah.value != 0 then
        Some(Point(endSurah.value, endAyah.value))
      else None
    else None
  }

  /** A point comes from a well-formed pair of references whose end names
      that surah and parses to that ayah. */
  lemma EndPointNamesItsSurah(g: MemorizationGrade)
    requires EndPointOf(g).Some?
    ensures |Split(g.startReference, ':')| == 2 && |Split(g.endReference, ':')| == 2
    ensures ClassUtils.SurahIdFromName(Split(g.startReference, ':')[0]).Some?
    ensures Name(EndPointOf(g).value.surah) == Split(g.endReference, ':')[0]
    ensures ParseInt(Split(g.endReference, ':')[1]) == Some(EndPointOf(g).value.ayah)
  {
  }

  /** The end points of the grades, in order. */
  function Points(grades: seq<MemorizationGrade>): (ps: seq<Option<Point>>)
    ensures |ps| == |grades|
    decreases |grades|
  {
    if grades == [] then [] else Points(grades[..|grades| - 1]) + [EndPointOf(grades[|grades| - 1])]
  }

  lemma {:induction false} PointsAt(grades: seq<MemorizationGrade>, i: nat)
    requires i < |grades|
    ensures Points(grades)[i] == EndPointOf(grades[i])
    decreases |grades|
  {
    if i < |grades| - 1 {
      PointsAt(grades[..|grades| - 1], i);
    }
  }

  /** One step of the selection loop. */
  function Step(best: Option<Point>, p: Option<Point>): Option<Point> {
    match p
    case None => best
    case Some(q) => if best.None? || Better(q, best.value) then p else best
  }

  /** The point the loop holds after the given points. */
  function Best(ps: seq<Option<Point>>): Option<Point>
    decreases |ps|
  {
    if ps == [] then None else Step(Best(ps[..|ps| - 1]), ps[|ps| - 1])
  }

  /** The selection: the result is one of the points, no point is further
      along, and there is none exactly when no grade has a point. */
  lemma {:induction false} BestIsMostAdvanced(ps: seq<Option<Point>>)
    ensures Best(ps).None? <==> forall i :: 0 <= i < |ps| ==> ps[i].None?
    ensures Best(ps).Some? ==> Best(ps) in ps
    ensures Best(ps).Some? ==> forall i :: 0 <= i < |ps| && ps[i].Some? ==> !Better(ps[i].value, Best(ps).value)
    decreases |ps|
  {
    if ps != [] {
      var n := |ps| - 1;
      var init := ps[..n];
      BestIsMostAdvanced(init);
      assert forall i :: 0 <= i < n ==> init[i] == ps[i];
      var b := Best(init);
      if ps[n].Some? && (b.None? || Better(ps[n].value, b.value)) {
      } else if b.Some? {
        assert b in init;
      }
    }
  }

  /** The choice does not depend on the order the points come in. */
  lemma BestOrderFree(a: seq<Option<Point>>, b: seq<Option<Point>>)
    requires forall p :: p in a <==> p in b
    ensures Best(a) == Best(b)
  {
    BestIsMostAdvanced(a);
    BestIsMostAdvanced(b);
    if Best(a).Some? {
      assert Best(a) in b && Best(b) in a;
      assert !Better(Best(a).value, Best(b).value);
      assert !Better(Best(b).value, Best(a).value);
    } else if Best(b).Some? {
      assert Best(b) in a;
    }
  }

  /** The selection loop of `updateStudentMemorizationProgress`. */
  method MostAdvanced(grades: seq<MemorizationGrade>) returns (best: Option<Point>)
    ensures best == Best(Points(grades))
  {
    best := None;
    var i := 0;
    while i < |grades|
      invariant 0 <= i <= |grades|
      invariant best == Best(Points(grades[..i]))
    {
      assert grades[..i + 1][..i] == grades[..i];
      best := Step(best, EndPointOf(grades[i]));
      i := i + 1;
    }
    assert grades[..i] == grades;
  }

  /** The students' stored progress after the update: unchanged when no
      grade has a valid point, otherwise the student's entry is the most
      advanced point. */
  function ProgressAfter(progress: map<string, Point>, studentId: string, grades: seq<MemorizationGrade>)
    : (r: map<string, Point>)
    ensures Best(Points(grades)).None? ==> r == progress
    ensures Best(Points(grades)).Some? ==> studentId in r && r[studentId] == Best(Points(grades)).value
    ensures forall s :: s != studentId ==> (s in r <==> s in progress) && (s in r ==> r[s] == progress[s])
  {
    match Best(Points(grades))
    case None => progress
    case Some(p) => progress[studentId := p]
  }

  /** A reference written as "<number>:<ayah>" names no surah, so a grade
      whose start or end reference uses a surah id contributes nothing. */
  lemma NumericReferenceIgnored(n: nat, ayah: string, other: string)
    ensures EndPointOf(MemorizationGrade(NatToString(n) + ":" + ayah, other)).None?
    ensures EndPointOf(MemorizationGrade(other, NatToString(n) + ":" + ayah)).None?
  {
    DigitsNameNoSurah(n, ayah);
  }

  lemma DigitsNameNoSurah(n: nat, ayah: string)
    ensures |Split(NatToString(n) + ":" + ayah, ':')| == 2 ==>
      ClassUtils.SurahIdFromName(Split(NatToString(n) + ":" + ayah, ':')[0]).None?
  {
    var s := NatToString(n) + ":" + ayah;
    var d := NatToString(n);
    if |Split(s, ':')| == 2 {
      assert ':' !in d by {
        assert forall i :: 0 <= i < |d| ==> IsDigit(d[i]);
      }
      FirstIndexAfter(d, ':', ayah);
      assert s == d + [':'] + ayah;
      assert Split(s, ':')[0] == d;
      forall id | IsSurahId(id)
        ensures Name(id) != d
      {
        NameStartsWithLetter(id);
      }
    }
  }

  /** No surah name begins with a decimal digit. */
  lemma NameStartsWithLetter(id: int)
    requires IsSurahId(id)
    ensures |Name(id)| > 0 && !IsDigit(Name(id)[0])
  {
    var s := Name(id);
    assert |s| > 0 && s[0] as int >= 0x600;
  }

  /** The body field `grade_value`: absent, JSON null, or a number. */
  datatype Field = Absent | Null | Number(value: int)

  /** The note the grade entry leaves on the attendance row. */
  const GradeEntryNote := "Auto-marked based on grade entry"

  /** The attendance upsert of a grade entry: a new row is present, not
      explicit, with a grade and the note; an existing row becomes present
      with a grade and the note and keeps only its explicit flag. */
  function GradeEntryRow(existing: Option<AttendanceRoute.AttendanceRow>): (r: AttendanceRoute.AttendanceRow)
    ensures r.isPresent && r.hasGrade && r.notes == Some(GradeEntryNote)
    ensures r.isExplicit <==> existing.Some? && existing.value.isExplicit
  {
    AttendanceRoute.AttendanceRow(true, existing.Some? && existing.value.isExplicit, true, Some(GradeEntryNote))
  }

  /** Unlike the automatic marker from grades, which keeps a day marked
      absent on purpose, a grade entered on a class marks that day
      present; both leave the day graded and keep its explicit flag. */
  lemma GradeEntryOverridesAbsence(existing: Option<AttendanceRoute.AttendanceRow>)
    ensures GradeEntryRow(existing).isPresent
    ensures existing.Some? && existing.value.isExplicit && !existing.value.isPresent ==>
      !AttendanceRoute.GradedRow(existing).isPresent
    ensures GradeEntryRow(existing).hasGrade && AttendanceRoute.GradedRow(existing).hasGrade
    ensures GradeEntryRow(existing).isExplicit == AttendanceRoute.GradedRow(existing).isExplicit
  {
  }

  datatype AddReply = MissingFields | ClassNotFound
                    | Added(row: GradesRoute.GradeRow, updatesProgress: bool, attendance: AttendanceRoute.AttendanceRow)

  /** POST /:id/grades. Student and course must be truthy and
      `grade_value` must not be undefined (null passes); the class must
      exist and lends its semester; the grade is always inserted, with
      `max_grade || 100` and `grade_type || 'assignment'`, only a
      memorisation grade with both references refreshes the progress, and
      the student's attendance row for the class, its semester and today
      (`existing` before the call) is upserted as present with a grade. */
  function AddGrade(classId: int, classSemesters: map<int, Option<int>>, id: nat,
                    studentId: string, courseId: int, gradeValue: Field, maxGrade: Option<int>,
                    gradeType: Option<string>, startReference: Option<string>, endReference: Option<string>,
                    notes: Option<string>, now: string, existing: Option<AttendanceRoute.AttendanceRow>): (r: AddReply)
    ensures r == MissingFields <==> |studentId| == 0 || courseId == 0 || gradeValue == Absent
    ensures r == ClassNotFound <==> |studentId| > 0 && courseId != 0 && gradeValue != Absent && classId !in classSemesters
    ensures r.Added? ==> r.row.studentId == studentId && r.row.courseId == courseId
    ensures r.Added? ==> r.row.classId == Some(classId) && r.row.semesterId == classSemesters[classId]
    ensures r.Added? ==> r.row.gradeValue == (if gradeValue.Number? then Some(gradeValue.value) else None)
    ensures r.Added? ==> (r.updatesProgress <==>
      (Truthy(startReference) && Truthy(endReference) && gradeType == Some("memorization")))
    ensures r.Added? ==> (r.attendance.isPresent && r.attendance.hasGrade
      && (r.attendance.isExplicit <==> existing.Some? && existing.value.isExplicit))
  {
    if |studentId| == 0 || courseId == 0 || gradeValue == Absent then MissingFields
    else if classId !in classSemesters then ClassNotFound
    else
      var row := GradesRoute.GradeRow(id, studentId, courseId, classSemesters[classId], Some(classId),
        if gradeValue.Number? then Some(gradeValue.value) else None,
        GradesRoute.MaxGradeOr100(maxGrade),
        if Truthy(gradeType) then gradeType.value else "assignment",
        startReference, endReference, notes, now);
      Added(row, Truthy(startReference) && Truthy(endReference) && gradeType == Some("memorization"),
            GradeEntryRow(existing))
  }

  /** `primary_teacher_id || teacher_ids[0]`; 0 is falsy. */
  function PrimaryId(teacherIds: seq<int>, primaryTeacherId: Option<int>): Option<int> {
    if primaryTeacherId.Some? && primaryTeacherId.value != 0 then primaryTeacherId
    else if |teacherIds| > 0 then Some(teacherIds[0])
    else None
  }

  /** The roles the loop leaves for a class: every listed id that is a
      teacher, "primary" exactly for the primary id. */
  function RolesFor(teacherIds: seq<int>, primaryId: Option<int>, teachers: set<int>): (roles: map<int, string>)
    ensures forall t :: t in roles <==> t in teacherIds && t in teachers
    ensures forall t :: t in roles ==> roles[t] == (if Some(t) == primaryId then "primary" else "secondary")
  {
    map t | t in teacherIds && t in teachers :: if Some(t) == primaryId then "primary" else "secondary"
  }

  /** At most one teacher of a class is primary; with no primary given, the
      first listed id is primary when it is a teacher. */
  lemma {:induction false} OnePrimary(teacherIds: seq<int>, primaryTeacherId: Option<int>, teachers: set<int>)
    ensures var roles := RolesFor(teacherIds, PrimaryId(teacherIds, primaryTeacherId), teachers);
      forall t, u :: t in roles && u in roles && roles[t] == "primary" && roles[u] == "primary" ==> t == u
    ensures (primaryTeacherId.None? || primaryTeacherId == Some(0)) && |teacherIds| > 0 && teacherIds[0] in teachers ==>
      RolesFor(teacherIds, PrimaryId(teacherIds, primaryTeacherId), teachers)[teacherIds[0]] == "primary"
    ensures primaryTeacherId.Some? && primaryTeacherId.value != 0 && primaryTeacherId.value !in teacherIds ==>
      forall t :: t in RolesFor(teacherIds, PrimaryId(teacherIds, primaryTeacherId), teachers) ==>
        RolesFor(teacherIds, PrimaryId(teacherIds, primaryTeacherId), teachers)[t] == "secondary"
  {
  }

  lemma RolesForSnoc(ids: seq<int>, t: int, primaryId: Option<int>, teachers: set<int>)
    ensures RolesFor(ids + [t], primaryId, teachers) == if t in teachers
      then RolesFor(ids, primaryId, teachers)[t := if Some(t) == primaryId then "primary" else "secondary"]
      else RolesFor(ids, primaryId, teachers)
  {
    var r := RolesFor(ids + [t], primaryId, teachers);
    var q := RolesFor(ids, primaryId, teachers);
    if t in teachers {
      assert r.Keys == q.Keys + {t};
    } else {
      assert r.Keys == q.Keys;
    }
  }

  datatype AssignReply = NoSuchClass | Assigned(count: nat)

  /** The teacher assignments, per class: teacher id to role. */
  class Assignments {
    var byClass: map<int, map<int, string>>

    constructor ()
      ensures byClass == map[]
    {
      byClass := map[];
    }

    /** POST /:id/teachers: 404 for an unknown class; otherwise every prior
        assignment of the class is deleted and each listed id that is a
        teacher is upserted with its role. */
    method AssignTeachers(classId: int, classes: set<int>, teacherIds: seq<int>, primaryTeacherId: Option<int>,
                          teachers: set<int>) returns (reply: AssignReply)
      modifies this
      ensures classId !in classes ==> reply == NoSuchClass && byClass == old(byClass)
      ensures classId in classes ==> reply == Assigned(|teacherIds|)
      ensures classId in classes ==>
        byClass == old(byClass)[classId := RolesFor(teacherIds, PrimaryId(teacherIds, primaryTeacherId), teachers)]
    {
      if classId !in classes {
        return NoSuchClass;
      }
      var primaryId := PrimaryId(teacherIds, primaryTeacherId);
      var roles: map<int, string> := map[];
      var i := 0;
      while i < |teacherIds|
        invariant 0 <= i <= |teacherIds|
        invariant roles == RolesFor(teacherIds[..i], primaryId, teachers)
        invariant byClass == old(byClass)
      {
        var t := teacherIds[i];
        assert teacherIds[..i + 1] == teacherIds[..i] + [t];
        RolesForSnoc(teacherIds[..i], t, primaryId, teachers);
        if t in teachers {
          roles := roles[t := if Some(t) == primaryId then "primary" else "secondary"];
        }
        i := i + 1;
      }
      assert teacherIds[..i] == teacherIds;
      byClass := byClass[classId := roles];
      reply := Assigned(|teacherIds|);
    }
  }
}
