/** The attendance calendar of one class: the 42 days shown for a month, the
    working-day test, a student's statistics over the semester so far, and
    the local update after a mark is saved. Dates are day numbers (see
    `Calendar`); the attendance state maps a day to the records of that day's
    students. */
module AttendanceCalendar {
  import opened Common
  import opened Calendar
  import Lists

  /** A student's record for one day; `notes` and `hasGrade` stand for the
      fields the page keeps but does not touch. */
  datatype Record = Record(studentId: string, date: Day, isPresent: bool, isExplicit: bool,
                           notes: Option<string>, hasGrade: bool)

  type AttendanceData = map<Day, map<string, Record>>

  /** The Sunday on or before `d`. */
  function WeekStart(d: Day): (s: Day)
    ensures s <= d < s + 7 && Weekday(s) == 0
  {
    d - Weekday(d)
  }

  /** `generateCalendarDays`: start from the Sunday on or before the first of
      the month and push 42 consecutive days. */
  method CalendarDays(firstOfMonth: Day) returns (days: seq<Day>)
    ensures |days| == 42
    ensures days[0] == WeekStart(firstOfMonth)
    ensures forall i :: 0 <= i < 42 ==> days[i] == days[0] + i
  {
    var current := firstOfMonth - Weekday(firstOfMonth);
    days := [];
    for i := 0 to 42
      invariant |days| == i && current == WeekStart(firstOfMonth) + i
      invariant forall j :: 0 <= j < i ==> days[j] == WeekStart(firstOfMonth) + j
    {
      days := days + [current];
      current := current + 1;
    }
  }

  /** Every day of a month of at most 31 days is on the grid, and the grid
      starts on a Sunday. */
  lemma MonthFitsGrid(firstOfMonth: Day, days: seq<Day>, monthLength: nat, d: Day)
    requires |days| == 42 && days[0] == WeekStart(firstOfMonth)
    requires forall i :: 0 <= i < 42 ==> days[i] == days[0] + i
    requires monthLength <= 31 && firstOfMonth <= d < firstOfMonth + monthLength
    ensures d in days && Weekday(days[0]) == 0
  {
    assert days[d - days[0]] == d;
  }

  /** The render loop that cuts the grid into rows of seven. */
  method Weeks(days: seq<Day>) returns (weeks: seq<seq<Day>>)
    ensures |weeks| == (|days| + 6) / 7
    ensures forall k :: 0 <= k < |weeks| ==> weeks[k] == days[7 * k .. Min(7 * k + 7, |days|)]
  {
    weeks := [];
    var i := 0;
    while i < |days|
      invariant 0 <= i <= |days| + 6 && i == 7 * |weeks|
      invariant i < |days| + 7
      invariant forall k :: 0 <= k < |weeks| ==> weeks[k] == days[7 * k .. Min(7 * k + 7, |days|)]
    {
      weeks := weeks + [days[i .. Min(i + 7, |days|)]];
      i := i + 7;
    }
  }

  /** The calendar grid is six weeks of seven days, each starting on a Sunday. */
  lemma GridIsSixWeeks(days: seq<Day>, weeks: seq<seq<Day>>)
    requires |days| == 42 && Weekday(days[0]) == 0
    requires forall i :: 0 <= i < 42 ==> days[i] == days[0] + i
    requires |weeks| == (|days| + 6) / 7
    requires forall k :: 0 <= k < |weeks| ==> weeks[k] == days[7 * k .. Min(7 * k + 7, |days|)]
    ensures |weeks| == 6
    ensures forall k :: 0 <= k < 6 ==> |weeks[k]| == 7 && Weekday(weeks[k][0]) == 0
  {
    forall k | 0 <= k < 6
      ensures |weeks[k]| == 7 && Weekday(weeks[k][0]) == 0
    {
      assert weeks[k][0] == days[7 * k] == days[0] + 7 * k;
    }
  }

  /** `isWorkingDay`: not a weekend day (ISO numbering, Friday and Saturday
      by default) and not a vacation day. */
  function WorkingDay(d: Day, weekendDays: Option<seq<int>>, vacationDays: Option<seq<Day>>): (ok: bool)
    ensures weekendDays.None? && vacationDays.None? ==> (ok <==> Weekday(d) != 5 && Weekday(d) != 6)
    ensures ok ==> d !in VacationsOrDefault(vacationDays)
    ensures ok <==> IsWorkingDay(d, WeekendOrDefault(weekendDays), VacationsOrDefault(vacationDays))
  {
    IsoWeekday(d) !in WeekendOrDefault(weekendDays) && d !in VacationsOrDefault(vacationDays)
  }

  function RecordOf(data: AttendanceData, d: Day, studentId: string): Option<Record> {
    if d in data && studentId in data[d] then Some(data[d][studentId]) else None
  }

  datatype Counts = Counts(totalDays: nat, presentDays: nat, explicitDays: nat)

  /** One working day's contribution. */
  function Tally(c: Counts, r: Option<Record>): (t: Counts)
    ensures t.totalDays == c.totalDays + 1
  {
    Counts(c.totalDays + 1,
           c.presentDays + (if r.Some? && r.value.isPresent then 1 else 0),
           c.explicitDays + (if r.Some? && r.value.isExplicit then 1 else 0))
  }

  /** The counts over the given working days. */
  function CountDays(days: seq<Day>, data: AttendanceData, studentId: string): (c: Counts)
    ensures c.totalDays == |days|
    ensures c.presentDays <= c.totalDays && c.explicitDays <= c.totalDays
  {
    if |days| == 0 then Counts(0, 0, 0)
    else
      Tally(CountDays(days[..|days| - 1], data, studentId), RecordOf(data, days[|days| - 1], studentId))
  }

  /** A present day is a working day whose record says present. */
  lemma {:induction false} PresentDaysCounted(days: seq<Day>, data: AttendanceData, studentId: string)
    ensures CountDays(days, data, studentId).presentDays
      == Lists.CountIf(days, (d: Day) => RecordOf(data, d, studentId).Some? && RecordOf(data, d, studentId).value.isPresent)
    decreases |days|
  {
    if |days| > 0 {
      PresentDaysCounted(days[..|days| - 1], data, studentId);
    }
  }

  datatype Stats = Stats(totalDays: nat, presentDays: nat, absentDays: nat, attendanceRate: int)

  /** The `while` loop of `getAttendanceStats`: from the semester start
      while the day is not after `maxDate`, counting working days. */
  method CountLoop(start: Day, maxDate: Instant, weekend: seq<int>, vacations: seq<Day>,
                   data: AttendanceData, studentId: string)
    returns (c: Counts)
    requires ValidInstant(maxDate)
    ensures c == CountDays(WorkingDays(start, maxDate.day, weekend, vacations), data, studentId)
  {
    c := Counts(0, 0, 0);
    var current := start;
    while !Before(maxDate, Midnight(current))
      invariant start <= current && (current <= maxDate.day + 1 || current == start)
      invariant c == CountDays(WorkingDays(start, current - 1, weekend, vacations), data, studentId)
      decreases maxDate.day + 1 - current
    {
      ghost var before := WorkingDays(start, current - 1, weekend, vacations);
      if IsoWeekday(current) !in weekend && current !in vacations {
        c := Tally(c, RecordOf(data, current, studentId));
        assert WorkingDays(start, current, weekend, vacations) == before + [current];
        assert (before + [current])[..|before|] == before;
      } else {
        assert WorkingDays(start, current, weekend, vacations) == before;
      }
      current := current + 1;
    }
    assert maxDate.day < current;
    if maxDate.day < start {
      assert WorkingDays(start, maxDate.day, weekend, vacations) == [];
    } else {
      assert current - 1 == maxDate.day;
    }
  }

  /** `getAttendanceStats`: the loop runs to `min(today, semesterEnd)`. */
  method AttendanceStats(start: Day, end: Day, weekendDays: Option<seq<int>>, vacationDays: Option<seq<Day>>,
                         data: AttendanceData, studentId: string, now: Instant)
    returns (s: Stats)
    requires ValidInstant(now)
    ensures var c := CountDays(WorkingDays(start, Earlier(Midnight(end), now).day,
                                           WeekendOrDefault(weekendDays), VacationsOrDefault(vacationDays)),
                               data, studentId);
      s.totalDays == c.totalDays && s.presentDays == c.presentDays
    ensures s.presentDays <= s.totalDays && s.absentDays == s.totalDays - s.presentDays
    ensures 0 <= s.attendanceRate <= 100 && (s.totalDays == 0 ==> s.attendanceRate == 0)
    ensures s.totalDays > 0 ==> s.attendanceRate == Percent(s.presentDays, s.totalDays)
  {
    var c := CountLoop(start, Earlier(Midnight(end), now), WeekendOrDefault(weekendDays),
                       VacationsOrDefault(vacationDays), data, studentId);
    var rate := if c.totalDays > 0 then Percent(c.presentDays, c.totalDays) else 0;
    s := Stats(c.totalDays, c.presentDays, c.totalDays - c.presentDays, rate);
  }

  /** The record after a mark: the given presence, explicit, and the other
      fields of an existing record kept. */
  function MarkedRecord(existing: Option<Record>, studentId: string, d: Day, isPresent: bool): (r: Record)
    ensures r.studentId == studentId && r.date == d && r.isPresent == isPresent && r.isExplicit
    ensures existing.Some? ==> r.notes == existing.value.notes && r.hasGrade == existing.value.hasGrade
    ensures existing.None? ==> r.notes.None? && !r.hasGrade
  {
    match existing
    case Some(e) => e.(studentId := studentId, date := d, isPresent := isPresent, isExplicit := true)
    case None => Record(studentId, d, isPresent, true, None, false)
  }

  /** The local state update after a saved mark. */
  function Marked(data: AttendanceData, d: Day, studentId: string, isPresent: bool): (r: AttendanceData)
    ensures r.Keys == data.Keys + {d}
    ensures RecordOf(r, d, studentId) == Some(MarkedRecord(RecordOf(data, d, studentId), studentId, d, isPresent))
    ensures forall e, s :: (e != d || s != studentId) ==> RecordOf(r, e, s) == RecordOf(data, e, s)
  {
    var day := if d in data then data[d] else map[];
    data[d := day[studentId := MarkedRecord(RecordOf(data, d, studentId), studentId, d, isPresent)]]
  }

  /** Marking the same value twice is the same as marking once. */
  lemma MarkIdempotent(data: AttendanceData, d: Day, studentId: string, isPresent: bool)
    ensures Marked(Marked(data, d, studentId, isPresent), d, studentId, isPresent)
         == Marked(data, d, studentId, isPresent)
  {
    var once := Marked(data, d, studentId, isPresent);
    var day := once[d];
    assert MarkedRecord(Some(day[studentId]), studentId, d, isPresent) == day[studentId];
    assert day[studentId := day[studentId]] == day;
    assert once[d := day] == once;
  }

  /** The calendar's attendance state. */
  class CalendarState {
    var attendanceData: AttendanceData

    constructor(data: AttendanceData)
      ensures attendanceData == data
    {
      attendanceData := data;
    }

    /** `markAttendance`: the state changes only when the server accepted the mark. */
    method MarkAttendance(d: Day, studentId: string, isPresent: bool, saved: bool)
      modifies this
      ensures saved ==> attendanceData == Marked(old(attendanceData), d, studentId, isPresent)
      ensures !saved ==> attendanceData == old(attendanceData)
    {
      if saved {
        var day := if d in attendanceData then attendanceData[d] else map[];
        var existing := RecordOf(attendanceData, d, studentId);
        attendanceData := attendanceData[d := day[studentId := MarkedRecord(existing, studentId, d, isPresent)]];
      }
    }
  }
}
