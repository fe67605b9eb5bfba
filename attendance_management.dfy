/** The attendance management page: the count of working days so far in a
    semester, the colour of an attendance rate, and the CSV export of the
    per-student statistics. */
module AttendanceManagement {
  import opened Common
  import opened Calendar

  /** `calculateWorkingDays`: 0 without both dates; otherwise walk from the
      start while the day is not after `min(end, today)`, counting days that
      are neither weekend (ISO numbering) nor vacation days. */
  method CalculateWorkingDays(startDate: Option<Day>, endDate: Option<Day>, weekendDays: Option<seq<int>>,
                              vacationDays: Option<seq<Day>>, now: Instant)
    returns (n: nat)
    requires ValidInstant(now)
    ensures startDate.None? || endDate.None? ==> n == 0
    ensures startDate.Some? && endDate.Some? ==>
      n == |WorkingDays(startDate.value, Earlier(Midnight(endDate.value), now).day,
                        WeekendOrDefault(weekendDays), VacationsOrDefault(vacationDays))|
  {
    if startDate.None? || endDate.None? {
      return 0;
    }
    n := CountWorkingDays(startDate.value, Earlier(Midnight(endDate.value), now),
                          WeekendOrDefault(weekendDays), VacationsOrDefault(vacationDays));
  }

  /** The walk itself: from `start` while the day is not after `maxDate`. */
  method CountWorkingDays(start: Day, maxDate: Instant, weekend: seq<int>, vacations: seq<Day>) returns (n: nat)
    requires ValidInstant(maxDate)
    ensures n == |WorkingDays(start, maxDate.day, weekend, vacations)|
  {
    n := 0;
    var current := start;
    while !Before(maxDate, Midnight(current))
      invariant start <= current && (current <= maxDate.day + 1 || current == start)
      invariant n == |WorkingDays(start, current - 1, weekend, vacations)|
      decreases maxDate.day + 1 - current
    {
      WorkingDaysCount(start, current, weekend, vacations);
      var isWeekend := IsoWeekday(current) in weekend;
      var isVacation := current in vacations;
      if !isWeekend && !isVacation {
        n := n + 1;
      }
      current := current + 1;
    }
    assert current - 1 == maxDate.day || (current == start && maxDate.day < start);
  }

  /** One more day in the range adds one working day exactly when it is one. */
  lemma WorkingDaysCount(start: Day, current: Day, weekend: seq<int>, vacations: seq<Day>)
    requires start <= current
    ensures |WorkingDays(start, current, weekend, vacations)|
      == |WorkingDays(start, current - 1, weekend, vacations)| + (if IsWorkingDay(current, weekend, vacations) then 1 else 0)
  {
  }

  /** No more working days than days in the range, and every day of the
      range with no weekend and no vacation. */
  lemma WorkingDaysBound(start: Day, last: Day, weekend: seq<int>, vacations: seq<Day>)
    requires start <= last + 1
    ensures |WorkingDays(start, last, weekend, vacations)| <= last - start + 1
    ensures |WorkingDays(start, last, [], [])| == last - start + 1
  {
    WorkingDaysAllDays(start, last);
  }

  datatype Color = Green | Blue | Yellow | Red

  function Rank(c: Color): nat {
    match c
    case Green => 0
    case Blue => 1
    case Yellow => 2
    case Red => 3
  }

  /** `getAttendanceRateColor`: 90 / 75 / 60. */
  function RateColor(rate: int): (c: Color)
    ensures c == Green <==> rate >= 90
    ensures c == Red <==> rate < 60
  {
    if rate >= 90 then Green
    else if rate >= 75 then Blue
    else if rate >= 60 then Yellow
    else Red
  }

  lemma RateColorMonotone(a: int, b: int)
    requires a <= b
    ensures Rank(RateColor(b)) <= Rank(RateColor(a))
  {
  }

  // The CSV export.

  /** A row of the statistics the server returns; None is a null count. */
  datatype StudentStats = StudentStats(
    firstName: string, secondName: string, thirdName: string, lastName: string,
    totalDays: Option<int>, presentDays: Option<int>, absentDays: Option<int>,
    percentage: Option<int>, explicitDays: Option<int>, gradeDays: Option<int>)

  const Header: seq<string> := ["اسم الطالب", "إجمالي الأيام", "أيام الحضور", "أيام الغياب",
                                "نسبة الحضور", "الأيام المسجلة يدوياً", "الأيام بناءً على الدرجات"]

  /** `x || 0`, printed. */
  function CountText(x: Option<int>): (s: string)
    ensures ',' !in s && |s| >= 1
  {
    NoCommaInNumber(x.GetOr(0));
    IntToString(x.GetOr(0))
  }

  lemma NoCommaInNumber(n: int)
    ensures ',' !in IntToString(n)
  {
    var s := if n < 0 then NatToString(-n) else NatToString(n);
    assert AllDigits(s);
    assert forall i :: 0 <= i < |s| ==> s[i] != ',';
  }

  /** The seven values of one student's row. */
  function RowValues(s: StudentStats): (r: seq<string>)
    ensures |r| == |Header| == 7
    ensures r[0] == s.firstName + " " + s.secondName + " " + s.thirdName + " " + s.lastName
    ensures r[1] == CountText(s.totalDays) && r[2] == CountText(s.presentDays) && r[3] == CountText(s.absentDays)
    ensures r[4] == CountText(s.percentage) + "%"
    ensures r[5] == CountText(s.explicitDays) && r[6] == CountText(s.gradeDays)
    ensures forall i :: 1 <= i < 7 ==> ',' !in r[i]
  {
    var rate := CountText(s.percentage) + "%";
    assert forall i :: 0 <= i < |rate| ==> rate[i] != ',';
    [s.firstName + " " + s.secondName + " " + s.thirdName + " " + s.lastName,
     CountText(s.totalDays), CountText(s.presentDays), CountText(s.absentDays), rate,
     CountText(s.explicitDays), CountText(s.gradeDays)]
  }

  /** `exportAttendanceReport`: nothing without statistics; otherwise the
      header line and one line per student, fields joined by commas. */
  function ExportLines(stats: seq<StudentStats>): (lines: Option<seq<string>>)
    ensures lines.None? <==> |stats| == 0
    ensures lines.Some? ==> |lines.value| == |stats| + 1 && lines.value[0] == Join(Header, ',')
    ensures lines.Some? ==> forall i :: 0 <= i < |stats| ==> lines.value[i + 1] == Join(RowValues(stats[i]), ',')
  {
    if |stats| == 0 then None
    else Some([Join(Header, ',')] + seq(|stats|, i requires 0 <= i < |stats| => Join(RowValues(stats[i]), ',')))
  }

  /** A line of the file reads back as the student's seven values when the
      name has no comma; the other six never contain one. */
  lemma ExportRowReadsBack(s: StudentStats)
    requires ',' !in s.firstName + " " + s.secondName + " " + s.thirdName + " " + s.lastName
    ensures Split(Join(RowValues(s), ','), ',') == RowValues(s)
    ensures |Split(Join(RowValues(s), ','), ',')| == 7
  {
    SplitJoin(RowValues(s), ',');
  }

  /** The header also splits into its seven column names. */
  lemma HeaderReadsBack()
    ensures Split(Join(Header, ','), ',') == Header
  {
    assert forall i :: 0 <= i < |Header| ==> ',' !in Header[i];
    SplitJoin(Header, ',');
  }
}
