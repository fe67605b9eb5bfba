/** The semester attendance handlers: the per-student summary, the
    working-day statistics loop, the mark upsert, and the two automatic
    markers (present from grades, absent where nothing was recorded). The
    `semester_attendance` table is a map keyed by (semester, class, student,
    date); the grades table is a list of rows. */
module AttendanceRoute {
  import opened Common
  import opened Calendar
  import opened Lists

  datatype AttendanceKey = AttendanceKey(semesterId: int, classId: int, studentId: string, date: Day)

  /** A stored row. A NULL `is_present` reads as false wherever it is read. */
  datatype AttendanceRow = AttendanceRow(isPresent: bool, isExplicit: bool, hasGrade: bool, notes: Option<string>)

  datatype Semester = Semester(
    startDate: Option<Day>, endDate: Option<Day>,
    weekendDays: Option<seq<int>>, vacationDays: Option<seq<Day>>)

  datatype Grade = Grade(studentId: string, classId: int, dateGraded: Option<Day>, createdDay: Day)

  datatype Reply = BadRequest | NotFound | Marked(row: AttendanceRow) | Counted(count: nat)

  /** `totalDays > 0 ? Math.round(presentDays / totalDays * 100) : 0`. */
  function AttendanceRate(present: nat, total: nat): (rate: int)
    requires present <= total
    ensures 0 <= rate <= 100
    ensures total == 0 ==> rate == 0
    ensures total > 0 && present == total ==> rate == 100
    ensures present == 0 ==> rate == 0
  {
    if total > 0 then Percent(present, total) else 0
  }

  // ---------------------------------------------------------------------------
  // Per-student summary over the fetched rows

  datatype Summary = Summary(totalDays: nat, presentDays: nat, absentDays: nat, percentage: int)

  function StudentSummary(rows: seq<AttendanceRow>): (s: Summary)
    ensures s.totalDays == |rows|
    ensures s.presentDays == CountIf(rows, (r: AttendanceRow) => r.isPresent)
    ensures s.presentDays + s.absentDays == s.totalDays
    ensures s.absentDays == CountIf(rows, (r: AttendanceRow) => !r.isPresent)
    ensures 0 <= s.percentage <= 100 && (s.totalDays == 0 ==> s.percentage == 0)
  {
    var present := CountIf(rows, (r: AttendanceRow) => r.isPresent);
    CountIfComplement(rows, (r: AttendanceRow) => r.isPresent, (r: AttendanceRow) => !r.isPresent);
    Summary(|rows|, present, |rows| - present, AttendanceRate(present, |rows|))
  }

  // ---------------------------------------------------------------------------
  // Working-day statistics

  datatype Stats = Stats(totalWorkingDays: nat, presentDays: nat, absentDays: nat, explicitDays: nat, gradeDays: nat)

  /** One working day's contribution: a present record counts as present (and
      as explicit and grade-based when flagged), anything else as absent. */
  function Tally(s: Stats, record: Option<AttendanceRow>): Stats {
    var total := s.totalWorkingDays + 1;
    match record
    case Some(r) =>
      if r.isPresent then
        Stats(total, s.presentDays + 1, s.absentDays,
              s.explicitDays + (if r.isExplicit then 1 else 0),
              s.gradeDays + (if r.hasGrade then 1 else 0))
      else Stats(total, s.presentDays, s.absentDays + 1, s.explicitDays, s.gradeDays)
    case None => Stats(total, s.presentDays, s.absentDays + 1, s.explicitDays, s.gradeDays)
  }

  function Lookup(records: map<Day, AttendanceRow>, d: Day): Option<AttendanceRow> {
    if d in records then Some(records[d]) else None
  }

  /** The statistics over the given working days. Every day is present or
      absent, and explicit and grade-based days are among the present ones. */
  function DayStats(days: seq<Day>, records: map<Day, AttendanceRow>): (s: Stats)
    ensures s.totalWorkingDays == |days|
    ensures s.presentDays + s.absentDays == s.totalWorkingDays
    ensures s.explicitDays <= s.presentDays && s.gradeDays <= s.presentDays
  {
    if |days| == 0 then Stats(0, 0, 0, 0, 0)
    else Tally(DayStats(days[..|days| - 1], records), Lookup(records, days[|days| - 1]))
  }

  /** A day is present exactly when its record says so. */
  lemma {:induction false} PresentDaysAreRecordedPresent(days: seq<Day>, records: map<Day, AttendanceRow>)
    ensures DayStats(days, records).presentDays
      == CountIf(days, (d: Day) => d in records && records[d].isPresent)
    decreases |days|
  {
    if |days| > 0 {
      PresentDaysAreRecordedPresent(days[..|days| - 1], records);
    }
  }

  /** The last day the statistics loop reaches: the loop runs while
      `currentDate <= maxDate`, with `maxDate = endDate < today ? endDate : today`. */
  function StatsMaxDate(endDate: Day, now: Instant): Instant {
    Earlier(Midnight(endDate), now)
  }

  function SemesterStats(sem: Semester, records: map<Day, AttendanceRow>, now: Instant): (s: Stats)
    requires ValidInstant(now)
  {
    if sem.startDate.Some? && sem.endDate.Some? then
      DayStats(WorkingDays(sem.startDate.value, StatsMaxDate(sem.endDate.value, now).day,
                           WeekendOrDefault(sem.weekendDays), VacationsOrDefault(sem.vacationDays)),
               records)
    else Stats(0, 0, 0, 0, 0)
  }

  /** The statistics handler: 404 without the semester; otherwise the day loop. */
  method AttendanceStats(sem: Option<Semester>, records: map<Day, AttendanceRow>, now: Instant)
    returns (found: bool, stats: Stats, rate: int)
    requires ValidInstant(now)
    ensures found <==> sem.Some?
    ensures found ==> stats == SemesterStats(sem.value, records, now)
    ensures found ==> rate == AttendanceRate(stats.presentDays, stats.totalWorkingDays)
    ensures stats.presentDays + stats.absentDays == stats.totalWorkingDays
  {
    stats := Stats(0, 0, 0, 0, 0);
    rate := 0;
    if sem.None? {
      found := false;
      return;
    }
    found := true;
    var s := sem.value;
    if s.startDate.Some? && s.endDate.Some? {
      stats := CountWorkingDays(s.startDate.value, StatsMaxDate(s.endDate.value, now),
                                WeekendOrDefault(s.weekendDays), VacationsOrDefault(s.vacationDays), records);
    }
    rate := AttendanceRate(stats.presentDays, stats.totalWorkingDays);
  }

  /** Extending the range by one day tallies that day when it is a working day. */
  lemma DayStatsStep(start: Day, current: Day, weekend: seq<int>, vacations: seq<Day>,
                     records: map<Day, AttendanceRow>)
    requires start <= current
    ensures DayStats(WorkingDays(start, current, weekend, vacations), records)
      == (if IsWorkingDay(current, weekend, vacations)
          then Tally(DayStats(WorkingDays(start, current - 1, weekend, vacations), records), Lookup(records, current))
          else DayStats(WorkingDays(start, current - 1, weekend, vacations), records))
  {
    var before := WorkingDays(start, current - 1, weekend, vacations);
    if IsWorkingDay(current, weekend, vacations) {
      assert WorkingDays(start, current, weekend, vacations) == before + [current];
      assert (before + [current])[..|before|] == before;
    } else {
      assert WorkingDays(start, current, weekend, vacations) == before;
    }
  }

  /** The day loop: `for (currentDate = start; currentDate <= maxDate; next day)`,
      tallying each working day. */
  method CountWorkingDays(start: Day, maxDate: Instant, weekend: seq<int>, vacations: seq<Day>,
                          records: map<Day, AttendanceRow>)
    returns (stats: Stats)
    requires ValidInstant(maxDate)
    ensures stats == DayStats(WorkingDays(start, maxDate.day, weekend, vacations), records)
  {
    stats := Stats(0, 0, 0, 0, 0);
    var current := start;
    while !Before(maxDate, Midnight(current))
      invariant start <= current && (current <= maxDate.day + 1 || current == start)
      invariant stats == DayStats(WorkingDays(start, current - 1, weekend, vacations), records)
      decreases maxDate.day + 1 - current
    {
      DayStatsStep(start, current, weekend, vacations, records);
      if IsWorkingDay(current, weekend, vacations) {
        stats := Tally(stats, Lookup(records, current));
      }
      current := current + 1;
    }
    assert current - 1 == maxDate.day || (current == start && maxDate.day < start);
  }

  // ---------------------------------------------------------------------------
  // Marking

  function LookupRow(rows: map<AttendanceKey, AttendanceRow>, k: AttendanceKey): Option<AttendanceRow> {
    if k in rows then Some(rows[k]) else None
  }

  /** The row a mark request leaves: the given presence and notes,
      `is_explicit || false`, and the grade flag of the row it replaces. */
  function MarkedRow(existing: Option<AttendanceRow>, isPresent: bool, isExplicit: Option<bool>, notes: Option<string>): (r: AttendanceRow)
    ensures r.isPresent == isPresent && r.notes == notes
    ensures r.isExplicit <==> isExplicit == Some(true)
    ensures r.hasGrade <==> existing.Some? && existing.value.hasGrade
  {
    AttendanceRow(isPresent, isExplicit.GetOr(false),
                  existing.Some? && existing.value.hasGrade, notes)
  }

  /** The row a grade leaves: it has a grade, and it is present unless it was
      explicitly marked, in which case its presence is kept. A missing row
      becomes present, not explicit, with a grade and no notes. */
  function GradedRow(existing: Option<AttendanceRow>): (r: AttendanceRow)
    ensures r.hasGrade
    ensures r.isExplicit <==> existing.Some? && existing.value.isExplicit
    ensures r.isPresent <==> existing.None? || !existing.value.isExplicit || existing.value.isPresent
    ensures existing.Some? ==> r.notes == existing.value.notes
    ensures existing.None? ==> r == AttendanceRow(true, false, true, None)
  {
    match existing
    case None => AttendanceRow(true, false, true, None)
    case Some(row) =>
      AttendanceRow(if row.isExplicit then row.isPresent else true, row.isExplicit, true, row.notes)
  }

  const AutoAbsentNote: string := "تم وضع الغياب تلقائياً - لا توجد درجات أو حضور"

  const AbsentRow: AttendanceRow := AttendanceRow(false, false, false, Some(AutoAbsentNote))

  /** A falsy id: missing or zero. */
  predicate Missing(x: Option<int>) {
    x.None? || x.value == 0
  }

  predicate MissingText(x: Option<string>) {
    x.None? || x.value == ""
  }

  /** The students the auto-mark-from-grades query selects, AS WRITTEN:
      `g.class_id = $1 AND DATE(g.date_graded) = $2 OR DATE(g.created_at) = $2`
      binds as `(class AND graded that day) OR created that day`. */
  predicate SelectedAsWritten(g: Grade, classId: int, date: Day) {
    (g.classId == classId && g.dateGraded == Some(date)) || g.createdDay == date
  }

  /** The evident intent, as the auto-mark-absent query writes it: the grade
      belongs to the class, and it was graded or created that day. */
  predicate GradedInClassOn(g: Grade, classId: int, date: Day) {
    g.classId == classId && (g.dateGraded == Some(date) || g.createdDay == date)
  }

  function AsWritten(classId: int, date: Day): Grade -> bool {
    (g: Grade) => SelectedAsWritten(g, classId, date)
  }

  function Intended(classId: int, date: Day): Grade -> bool {
    (g: Grade) => GradedInClassOn(g, classId, date)
  }

  /** The first-occurrence list of student ids among the grades chosen by `selected`. */
  function GradedStudents(grades: seq<Grade>, selected: Grade -> bool): (ids: seq<string>)
    ensures DistinctKeys(ids, (s: string) => s)
    ensures forall s :: s in ids <==> exists i :: 0 <= i < |grades| && selected(grades[i]) && grades[i].studentId == s
  {
    var chosen := Filter(grades, selected);
    var projected := Project(chosen);
    var ids := FirstPerKey(projected, (s: string) => s);
    GradedStudentsMembers(grades, selected, chosen, projected, ids);
    ids
  }

  lemma GradedStudentsMembers(grades: seq<Grade>, selected: Grade -> bool, chosen: seq<Grade>,
                              projected: seq<string>, ids: seq<string>)
    requires forall i :: 0 <= i < |chosen| ==> chosen[i] in grades && selected(chosen[i])
    requires forall i :: 0 <= i < |grades| && selected(grades[i]) ==> grades[i] in chosen
    requires |projected| == |chosen| && forall i :: 0 <= i < |chosen| ==> projected[i] == chosen[i].studentId
    requires KeySet(ids, (s: string) => s) == KeySet(projected, (s: string) => s)
    ensures forall s :: s in ids <==> exists i :: 0 <= i < |grades| && selected(grades[i]) && grades[i].studentId == s
  {
    forall s
      ensures s in ids <==> exists i :: 0 <= i < |grades| && selected(grades[i]) && grades[i].studentId == s
    {
      assert s in ids <==> s in KeySet(ids, (s: string) => s);
      assert s in projected <==> s in KeySet(projected, (s: string) => s);
      if s in projected {
        var j :| 0 <= j < |projected| && projected[j] == s;
        var i :| 0 <= i < |grades| && grades[i] == chosen[j];
        assert selected(grades[i]) && grades[i].studentId == s;
      }
      if exists i :: 0 <= i < |grades| && selected(grades[i]) && grades[i].studentId == s {
        var i :| 0 <= i < |grades| && selected(grades[i]) && grades[i].studentId == s;
        var j :| 0 <= j < |chosen| && chosen[j] == grades[i];
        assert projected[j] == s;
      }
    }
  }

  function Project(gs: seq<Grade>): (ids: seq<string>)
    ensures |ids| == |gs| && forall i :: 0 <= i < |gs| ==> ids[i] == gs[i].studentId
  {
    if |gs| == 0 then [] else Project(gs[..|gs| - 1]) + [gs[|gs| - 1].studentId]
  }

  /** Applying `GradedRow` to each of `keys` in turn. */
  function GradeAll(rows: map<AttendanceKey, AttendanceRow>, keys: seq<AttendanceKey>): map<AttendanceKey, AttendanceRow>
  {
    if |keys| == 0 then rows
    else
      var prev := GradeAll(rows, keys[..|keys| - 1]);
      var k := keys[|keys| - 1];
      prev[k := GradedRow(LookupRow(prev, k))]
  }

  /** After grading, every listed key holds a graded row derived from its old
      row (when the keys are distinct), and every other row is unchanged. */
  lemma {:induction false} GradeAllEffect(rows: map<AttendanceKey, AttendanceRow>, keys: seq<AttendanceKey>)
    requires DistinctKeys(keys, (k: AttendanceKey) => k)
    ensures forall k :: k in GradeAll(rows, keys) <==> k in rows || k in keys
    ensures forall k :: k in keys ==> GradeAll(rows, keys)[k] == GradedRow(LookupRow(rows, k))
    ensures forall k :: k in rows && k !in keys ==> GradeAll(rows, keys)[k] == rows[k]
    decreases |keys|
  {
    if |keys| > 0 {
      var init := keys[..|keys| - 1];
      var last := keys[|keys| - 1];
      assert keys == init + [last];
      assert DistinctKeys(init, (k: AttendanceKey) => k);
      GradeAllEffect(rows, init);
      assert last !in init by {
        forall i | 0 <= i < |init| ensures init[i] != last {
          assert keys[i] == init[i];
        }
      }
    }
  }

  /** One more key: it is graded from its original row, and counted when it had none. */
  lemma GradeAllStep(rows: map<AttendanceKey, AttendanceRow>, keys: seq<AttendanceKey>, i: nat)
    requires i < |keys| && DistinctKeys(keys, (k: AttendanceKey) => k)
    ensures var prev := GradeAll(rows, keys[..i]);
      var k := keys[i];
      (k in prev <==> k in rows) && (k in rows ==> prev[k] == rows[k])
      && GradeAll(rows, keys[..i + 1]) == prev[k := GradedRow(LookupRow(prev, k))]
      && CountAbsent(rows, keys[..i + 1]) == CountAbsent(rows, keys[..i]) + (if k in rows then 0 else 1)
  {
    var k := keys[i];
    assert keys[..i + 1][..i] == keys[..i];
    assert DistinctKeys(keys[..i], (k: AttendanceKey) => k);
    GradeAllEffect(rows, keys[..i]);
    assert k !in keys[..i] by {
      forall j | 0 <= j < i ensures keys[..i][j] != k {
        assert keys[..i][j] == keys[j];
      }
    }
  }

  function KeysFor(semesterId: int, classId: int, date: Day, students: seq<string>): (ks: seq<AttendanceKey>)
    ensures |ks| == |students|
    ensures forall i :: 0 <= i < |ks| ==> ks[i] == AttendanceKey(semesterId, classId, students[i], date)
  {
    if |students| == 0 then []
    else KeysFor(semesterId, classId, date, students[..|students| - 1])
         + [AttendanceKey(semesterId, classId, students[|students| - 1], date)]
  }

  lemma KeysForDistinct(semesterId: int, classId: int, date: Day, students: seq<string>)
    requires DistinctKeys(students, (s: string) => s)
    ensures DistinctKeys(KeysFor(semesterId, classId, date, students), (k: AttendanceKey) => k)
  {
  }

  function CountAbsent(rows: map<AttendanceKey, AttendanceRow>, keys: seq<AttendanceKey>): nat {
    CountIf(keys, (k: AttendanceKey) => k !in rows)
  }

  /** The query as written picks a student whose only grade that day is in
      another class, and the handler then marks that student present here. */
  lemma AsWrittenMarksOtherClass()
    ensures var g := Grade("1234567890", 2, None, 100);
      var ids := GradedStudents([g], AsWritten(1, 100));
      var marked := GradeAll(map[], KeysFor(7, 1, 100, ids));
      var k := AttendanceKey(7, 1, "1234567890", 100);
      !GradedInClassOn(g, 1, 100) && k in marked && marked[k].isPresent
  {
    var g := Grade("1234567890", 2, None, 100);
    var ids := GradedStudents([g], AsWritten(1, 100));
    assert AsWritten(1, 100)([g][0]);
    assert "1234567890" in ids;
    var j :| 0 <= j < |ids| && ids[j] == "1234567890";
    var keys := KeysFor(7, 1, 100, ids);
    KeysForDistinct(7, 1, 100, ids);
    GradeAllEffect(map[], keys);
    assert keys[j] == AttendanceKey(7, 1, "1234567890", 100);
  }

  /** With the intended selection, every student marked from grades has a
      grade in this class on that date. */
  lemma {:induction false} IntendedMarksOnlyGradedStudents(rows: map<AttendanceKey, AttendanceRow>, semesterId: int,
                                                           classId: int, date: Day, grades: seq<Grade>, k: AttendanceKey)
    requires k in GradeAll(rows, KeysFor(semesterId, classId, date, GradedStudents(grades, Intended(classId, date))))
    requires k !in rows
    ensures k.semesterId == semesterId && k.classId == classId && k.date == date
    ensures exists i :: 0 <= i < |grades| && GradedInClassOn(grades[i], classId, date) && grades[i].studentId == k.studentId
  {
    var ids := GradedStudents(grades, Intended(classId, date));
    var keys := KeysFor(semesterId, classId, date, ids);
    KeysForDistinct(semesterId, classId, date, ids);
    GradeAllEffect(rows, keys);
    var j :| 0 <= j < |keys| && keys[j] == k;
    assert ids[j] in ids;
    var i :| 0 <= i < |grades| && Intended(classId, date)(grades[i]) && grades[i].studentId == ids[j];
  }

  // ---------------------------------------------------------------------------
  // Automatic absences

  /** The grade query of auto-mark-absent: a grade of this student in this
      class, graded or created on the day. */
  predicate HasGradeOn(grades: seq<Grade>, k: AttendanceKey) {
    exists i :: 0 <= i < |grades| && grades[i].studentId == k.studentId && GradedInClassOn(grades[i], k.classId, k.date)
  }

  /** The rows auto-mark-absent inserts for the candidate keys: one absence
      for each candidate with neither a row nor a grade. */
  function NewAbsences(rows: map<AttendanceKey, AttendanceRow>, candidates: set<AttendanceKey>, grades: seq<Grade>)
    : (added: map<AttendanceKey, AttendanceRow>)
    ensures forall k :: k in added <==> k in candidates && k !in rows && !HasGradeOn(grades, k)
    ensures forall k :: k in added ==> added[k] == AbsentRow
  {
    map k | k in candidates && k !in rows && !HasGradeOn(grades, k) :: AbsentRow
  }

  /** Considering one more candidate inserts it exactly when it has no row yet and no grade. */
  lemma NewAbsencesStep(rows: map<AttendanceKey, AttendanceRow>, done: set<AttendanceKey>, k: AttendanceKey, grades: seq<Grade>)
    ensures var cur := rows + NewAbsences(rows, done, grades);
      rows + NewAbsences(rows, done + {k}, grades)
        == if k in cur || HasGradeOn(grades, k) then cur else cur[k := AbsentRow]
  {
    var cur := rows + NewAbsences(rows, done, grades);
    var next := rows + NewAbsences(rows, done + {k}, grades);
    if k in cur || HasGradeOn(grades, k) {
      assert next == cur;
    } else {
      assert next == cur[k := AbsentRow];
    }
  }

  /** An inserted absence never replaces a row, and stands for a day on
      which the student had no grade in the class. */
  lemma NewAbsencesSound(rows: map<AttendanceKey, AttendanceRow>, candidates: set<AttendanceKey>, grades: seq<Grade>, k: AttendanceKey)
    requires k in rows + NewAbsences(rows, candidates, grades)
    ensures k in rows ==> (rows + NewAbsences(rows, candidates, grades))[k] == rows[k]
    ensures k !in rows ==>
      k in candidates && !HasGradeOn(grades, k) && (rows + NewAbsences(rows, candidates, grades))[k] == AbsentRow
  {
  }

  function DayKeys(semesterId: int, classId: int, students: seq<string>, date: Day): set<AttendanceKey> {
    set s | s in students :: AttendanceKey(semesterId, classId, s, date)
  }

  lemma DayKeysStep(semesterId: int, classId: int, students: seq<string>, j: nat, date: Day)
    requires j < |students|
    ensures DayKeys(semesterId, classId, students[..j + 1], date)
      == DayKeys(semesterId, classId, students[..j], date) + {AttendanceKey(semesterId, classId, students[j], date)}
  {
    assert students[..j + 1] == students[..j] + [students[j]];
  }

  /** The candidates for one date: every listed student, but only when the
      date is before now and a working day. */
  function DateCandidates(semesterId: int, classId: int, students: seq<string>, date: Day, now: Instant,
                          weekend: seq<int>, vacations: seq<Day>): set<AttendanceKey>
  {
    if Before(Midnight(date), now) && IsWorkingDay(date, weekend, vacations)
    then DayKeys(semesterId, classId, students, date)
    else {}
  }

  /** The last day of the full-semester loop, which runs while `currentDate < maxDate`. */
  function AbsentLastDay(maxDate: Instant): Day {
    if maxDate.ms > 0 then maxDate.day else maxDate.day - 1
  }

  lemma AbsentLoopCovers(maxDate: Instant, d: Day)
    requires ValidInstant(maxDate)
    ensures Before(Midnight(d), maxDate) <==> d <= AbsentLastDay(maxDate)
  {
  }

  /** When the semester ended before now, the statistics loop counts its
      last day while the auto-mark-absent loop stops the day before. */
  lemma LoopBoundsDiffer(endDate: Day, now: Instant)
    requires ValidInstant(now) && Before(Midnight(endDate), now)
    ensures StatsMaxDate(endDate, now).day == endDate
    ensures AbsentLastDay(StatsMaxDate(endDate, now)) == endDate - 1
  {
  }

  function SemesterCandidates(semesterId: int, classId: int, students: seq<string>, first: Day, last: Day,
                              weekend: seq<int>, vacations: seq<Day>): set<AttendanceKey>
  {
    set s, d | s in students && d in WorkingDays(first, last, weekend, vacations) :: AttendanceKey(semesterId, classId, s, d)
  }

  /** The students of `SELECT DISTINCT ... WHERE se.class_id = $1 AND se.status = 'enrolled'`. */
  datatype Enrollment = Enrollment(studentId: string, classId: int, status: string)

  predicate IsEnrolled(e: Enrollment, classId: int, s: string) {
    e.studentId == s && e.classId == classId && e.status == "enrolled"
  }

  function EnrolledStudents(enrollments: seq<Enrollment>, classId: int): (ids: seq<string>)
    ensures forall s :: s in ids <==> exists i :: 0 <= i < |enrollments| && IsEnrolled(enrollments[i], classId, s)
  {
    if |enrollments| == 0 then []
    else
      var e := enrollments[|enrollments| - 1];
      var prev := EnrolledStudents(enrollments[..|enrollments| - 1], classId);
      assert forall i :: 0 <= i < |enrollments| - 1 ==> enrollments[..|enrollments| - 1][i] == enrollments[i];
      if IsEnrolled(e, classId, e.studentId) && e.studentId !in prev then prev + [e.studentId] else prev
  }

  /** All candidates of the auto-mark-absent request. */
  function AbsentCandidates(semesterId: int, classId: int, sem: Semester, date: Option<Day>,
                            students: seq<string>, now: Instant): set<AttendanceKey>
  {
    var weekend := WeekendOrDefault(sem.weekendDays);
    var vacations := VacationsOrDefault(sem.vacationDays);
    if date.Some? then DateCandidates(semesterId, classId, students, date.value, now, weekend, vacations)
    else if sem.startDate.Some? && sem.endDate.Some? then
      SemesterCandidates(semesterId, classId, students, sem.startDate.value,
                         AbsentLastDay(StatsMaxDate(sem.endDate.value, now)), weekend, vacations)
    else {}
  }

  /** The attendance table the handlers read and write. */
  class AttendanceTable {
    var rows: map<AttendanceKey, AttendanceRow>

    constructor (initial: map<AttendanceKey, AttendanceRow>)
      ensures rows == initial
    {
      rows := initial;
    }

    /** POST /: rejects a request missing semester, class, student or date;
        otherwise updates the row for the key or inserts one. */
    method Mark(semesterId: Option<int>, classId: Option<int>, studentId: Option<string>, date: Option<Day>,
                isPresent: bool, isExplicit: Option<bool>, notes: Option<string>)
      returns (reply: Reply)
      modifies this
      ensures Missing(semesterId) || Missing(classId) || MissingText(studentId) || date.None?
        ==> reply == BadRequest && rows == old(rows)
      ensures !(Missing(semesterId) || Missing(classId) || MissingText(studentId) || date.None?) ==>
        var k := AttendanceKey(semesterId.value, classId.value, studentId.value, date.value);
        var row := MarkedRow(LookupRow(old(rows), k), isPresent, isExplicit, notes);
        reply == Marked(row) && rows == old(rows)[k := row]
    {
      if Missing(semesterId) || Missing(classId) || MissingText(studentId) || date.None? {
        return BadRequest;
      }
      var k := AttendanceKey(semesterId.value, classId.value, studentId.value, date.value);
      var row := MarkedRow(LookupRow(rows, k), isPresent, isExplicit, notes);
      rows := rows[k := row];
      reply := Marked(row);
    }

    /** POST /auto-mark-from-grades: for each student graded in the class on
        the date, insert a present row (counted) or mark the existing row as
        graded. The selection is the corrected one; `AsWrittenMarksOtherClass`
        shows what the query as written selects. */
    method AutoMarkFromGrades(semesterId: Option<int>, classId: Option<int>, date: Option<Day>, grades: seq<Grade>)
      returns (reply: Reply)
      modifies this
      ensures Missing(semesterId) || Missing(classId) || date.None? ==> reply == BadRequest && rows == old(rows)
      ensures !(Missing(semesterId) || Missing(classId) || date.None?) ==>
        var students := GradedStudents(grades, Intended(classId.value, date.value));
        var keys := KeysFor(semesterId.value, classId.value, date.value, students);
        rows == GradeAll(old(rows), keys) && reply == Counted(CountAbsent(old(rows), keys))
    {
      if Missing(semesterId) || Missing(classId) || date.None? {
        return BadRequest;
      }
      var students := GradedStudents(grades, Intended(classId.value, date.value));
      ghost var keys := KeysFor(semesterId.value, classId.value, date.value, students);
      ghost var rows0 := rows;
      KeysForDistinct(semesterId.value, classId.value, date.value, students);
      var updated := 0;
      var i := 0;
      while i < |students|
        invariant 0 <= i <= |students|
        invariant rows == GradeAll(rows0, keys[..i])
        invariant updated == CountAbsent(rows0, keys[..i])
      {
        var k := AttendanceKey(semesterId.value, classId.value, students[i], date.value);
        GradeAllStep(rows0, keys, i);
        if k !in rows {
          rows := rows[k := GradedRow(None)];
          updated := updated + 1;
        } else {
          rows := rows[k := GradedRow(Some(rows[k]))];
        }
        i := i + 1;
      }
      assert keys[..|students|] == keys;
      reply := Counted(updated);
    }

    /** Considers one student on one day: inserts an absence when there is
        neither a row nor a grade, and counts it. */
    method ConsiderAbsence(k: AttendanceKey, grades: seq<Grade>, count: nat) returns (count': nat)
      modifies this
      ensures rows == (if k in old(rows) || HasGradeOn(grades, k) then old(rows) else old(rows)[k := AbsentRow])
      ensures count' == count + |rows.Keys| - |old(rows).Keys|
    {
      count' := count;
      if k !in rows {
        var graded := exists i :: 0 <= i < |grades| && grades[i].studentId == k.studentId
                                  && GradedInClassOn(grades[i], k.classId, k.date);
        if !graded {
          assert rows[k := AbsentRow].Keys == rows.Keys + {k};
          rows := rows[k := AbsentRow];
          count' := count + 1;
        }
      }
    }

    /** The loop over the enrolled students for one day. */
    method MarkDayAbsences(semesterId: int, classId: int, students: seq<string>, day: Day, grades: seq<Grade>,
                           count: nat, ghost rows0: map<AttendanceKey, AttendanceRow>, ghost before: set<AttendanceKey>)
      returns (count': nat)
      modifies this
      requires rows == rows0 + NewAbsences(rows0, before, grades)
      requires count == |rows.Keys| - |rows0.Keys| && rows0.Keys <= rows.Keys
      ensures rows == rows0 + NewAbsences(rows0, before + DayKeys(semesterId, classId, students, day), grades)
      ensures count' == |rows.Keys| - |rows0.Keys| && rows0.Keys <= rows.Keys
    {
      count' := count;
      ghost var done := before;
      var j := 0;
      while j < |students|
        invariant 0 <= j <= |students|
        invariant done == before + DayKeys(semesterId, classId, students[..j], day)
        invariant rows == rows0 + NewAbsences(rows0, done, grades)
        invariant count' == |rows.Keys| - |rows0.Keys| && rows0.Keys <= rows.Keys
      {
        var k := AttendanceKey(semesterId, classId, students[j], day);
        NewAbsencesStep(rows0, done, k, grades);
        count' := ConsiderAbsence(k, grades, count');
        done := done + {k};
        DayKeysStep(semesterId, classId, students, j, day);
        j := j + 1;
      }
      assert students[..|students|] == students;
    }

    /** POST /auto-mark-absent: 400 without semester or class, 404 without the
        semester row; otherwise one absence for every enrolled student on every
        candidate day that has neither a row nor a grade, counted. */
    method AutoMarkAbsent(semesterId: Option<int>, classId: Option<int>, date: Option<Day>, sem: Option<Semester>,
                          enrollments: seq<Enrollment>, grades: seq<Grade>, now: Instant)
      returns (reply: Reply)
      requires ValidInstant(now)
      modifies this
      ensures Missing(semesterId) || Missing(classId) ==> reply == BadRequest && rows == old(rows)
      ensures !(Missing(semesterId) || Missing(classId)) && sem.None? ==> reply == NotFound && rows == old(rows)
      ensures !(Missing(semesterId) || Missing(classId)) && sem.Some? ==>
        var students := EnrolledStudents(enrollments, classId.value);
        var candidates := AbsentCandidates(semesterId.value, classId.value, sem.value, date, students, now);
        rows == old(rows) + NewAbsences(old(rows), candidates, grades)
        && reply == Counted(|rows.Keys| - |old(rows).Keys|)
    {
      if Missing(semesterId) || Missing(classId) {
        return BadRequest;
      }
      if sem.None? {
        return NotFound;
      }
      var s := sem.value;
      var weekend := WeekendOrDefault(s.weekendDays);
      var vacations := VacationsOrDefault(s.vacationDays);
      var students := EnrolledStudents(enrollments, classId.value);
      ghost var rows0 := rows;
      var count: nat := 0;
      assert rows0 + NewAbsences(rows0, {}, grades) == rows0;
      if date.Some? {
        var d := date.value;
        if Before(Midnight(d), now) && IsWorkingDay(d, weekend, vacations) {
          count := MarkDayAbsences(semesterId.value, classId.value, students, d, grades, count, rows0, {});
          assert {} + DayKeys(semesterId.value, classId.value, students, d) == DayKeys(semesterId.value, classId.value, students, d);
        }
      } else if s.startDate.Some? && s.endDate.Some? {
        count := MarkSemesterAbsences(semesterId.value, classId.value, students, s.startDate.value,
                                      StatsMaxDate(s.endDate.value, now), weekend, vacations, grades, rows0);
      }
      reply := Counted(count);
    }

    /** The full-semester loop: every day before `maxDate`. */
    method MarkSemesterAbsences(semesterId: int, classId: int, students: seq<string>, start: Day, maxDate: Instant,
                                weekend: seq<int>, vacations: seq<Day>, grades: seq<Grade>,
                                ghost rows0: map<AttendanceKey, AttendanceRow>)
      returns (count: nat)
      modifies this
      requires ValidInstant(maxDate)
      requires rows == rows0
      ensures rows == rows0 + NewAbsences(rows0, SemesterCandidates(semesterId, classId, students, start,
                                                   AbsentLastDay(maxDate), weekend, vacations), grades)
      ensures count == |rows.Keys| - |rows0.Keys|
    {
      count := 0;
      ghost var done: set<AttendanceKey> := {};
      assert rows0 + NewAbsences(rows0, {}, grades) == rows0;
      SemesterCandidatesEmpty(semesterId, classId, students, start, start - 1, weekend, vacations);
      var current := start;
      while Before(Midnight(current), maxDate)
        invariant start <= current && (current <= AbsentLastDay(maxDate) + 1 || current == start)
        invariant done == SemesterCandidates(semesterId, classId, students, start, current - 1, weekend, vacations)
        invariant rows == rows0 + NewAbsences(rows0, done, grades)
        invariant count == |rows.Keys| - |rows0.Keys| && rows0.Keys <= rows.Keys
        decreases maxDate.day + 1 - current
      {
        if IsWorkingDay(current, weekend, vacations) {
          count := MarkDayAbsences(semesterId, classId, students, current, grades, count, rows0, done);
          SemesterCandidatesStep(semesterId, classId, students, start, current, weekend, vacations);
          done := done + DayKeys(semesterId, classId, students, current);
        } else {
          assert WorkingDays(start, current, weekend, vacations) == WorkingDays(start, current - 1, weekend, vacations);
        }
        current := current + 1;
      }
      AbsentLoopCovers(maxDate, current);
      if current - 1 != AbsentLastDay(maxDate) {
        SemesterCandidatesEmpty(semesterId, classId, students, start, current - 1, weekend, vacations);
        SemesterCandidatesEmpty(semesterId, classId, students, start, AbsentLastDay(maxDate), weekend, vacations);
      }
    }
  }

  lemma SemesterCandidatesEmpty(semesterId: int, classId: int, students: seq<string>, first: Day, last: Day,
                                weekend: seq<int>, vacations: seq<Day>)
    requires last < first
    ensures SemesterCandidates(semesterId, classId, students, first, last, weekend, vacations) == {}
  {
    assert WorkingDays(first, last, weekend, vacations) == [];
  }

  lemma SemesterCandidatesStep(semesterId: int, classId: int, students: seq<string>, first: Day, day: Day,
                               weekend: seq<int>, vacations: seq<Day>)
    requires first <= day && IsWorkingDay(day, weekend, vacations)
    ensures SemesterCandidates(semesterId, classId, students, first, day, weekend, vacations)
      == SemesterCandidates(semesterId, classId, students, first, day - 1, weekend, vacations)
         + DayKeys(semesterId, classId, students, day)
  {
    assert WorkingDays(first, day, weekend, vacations) == WorkingDays(first, day - 1, weekend, vacations) + [day];
  }
}
