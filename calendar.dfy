/** Calendar arithmetic shared by the attendance handlers and pages. A date is
    an integer day number; day 0 is a Sunday, so JavaScript's `getDay()` is the
    day number modulo 7. A moment in time is a day and the milliseconds elapsed
    since its midnight: a date-only string parses to that day's midnight, and
    `new Date()` is a moment that the caller passes in. */
module Calendar {
  import opened Common

  type Day = int

  const MillisPerDay: int := 86400000

  datatype Instant = Instant(day: Day, ms: int)

  predicate ValidInstant(t: Instant) {
    0 <= t.ms < MillisPerDay
  }

  function Midnight(d: Day): (t: Instant)
    ensures ValidInstant(t)
  {
    Instant(d, 0)
  }

  /** `a < b` on JavaScript dates. */
  predicate Before(a: Instant, b: Instant) {
    a.day < b.day || (a.day == b.day && a.ms < b.ms)
  }

  /** `a < b ? a : b`, as the handlers pick the last day to count. */
  function Earlier(a: Instant, b: Instant): (r: Instant)
    ensures r == a || r == b
    ensures !Before(b, r) && !Before(a, r)
  {
    if Before(a, b) then a else b
  }

  /** `getDay()`: 0 for Sunday through 6 for Saturday. */
  function Weekday(d: Day): (w: int)
    ensures 0 <= w < 7
  {
    d % 7
  }

  /** `getDay() === 0 ? 7 : getDay()`: Monday 1 through Sunday 7. */
  function IsoWeekday(d: Day): (w: int)
    ensures 1 <= w <= 7
    ensures w == 7 <==> Weekday(d) == 0
    ensures w != 7 ==> w == Weekday(d)
  {
    if Weekday(d) == 0 then 7 else Weekday(d)
  }

  /** `weekend_days || [5, 6]`: Friday and Saturday unless the semester says otherwise. */
  function WeekendOrDefault(w: Option<seq<int>>): seq<int> {
    w.GetOr([5, 6])
  }

  /** `vacation_days || []`. */
  function VacationsOrDefault(v: Option<seq<Day>>): seq<Day> {
    v.GetOr([])
  }

  predicate IsWorkingDay(d: Day, weekend: seq<int>, vacations: seq<Day>) {
    IsoWeekday(d) !in weekend && d !in vacations
  }

  /** The working days from `first` through `last`, in order. */
  function WorkingDays(first: Day, last: Day, weekend: seq<int>, vacations: seq<Day>): (ds: seq<Day>)
    ensures |ds| <= if last < first then 0 else last - first + 1
    ensures forall i :: 0 <= i < |ds| ==> first <= ds[i] <= last && IsWorkingDay(ds[i], weekend, vacations)
    decreases last - first
  {
    if last < first then []
    else
      WorkingDays(first, last - 1, weekend, vacations)
      + (if IsWorkingDay(last, weekend, vacations) then [last] else [])
  }

  lemma {:induction false} WorkingDaysComplete(first: Day, last: Day, weekend: seq<int>, vacations: seq<Day>, d: Day)
    requires first <= d <= last && IsWorkingDay(d, weekend, vacations)
    ensures d in WorkingDays(first, last, weekend, vacations)
    decreases last - first
  {
    if d < last {
      WorkingDaysComplete(first, last - 1, weekend, vacations, d);
    }
  }

  predicate StrictlyIncreasing(s: seq<int>) {
    forall i, j :: 0 <= i < j < |s| ==> s[i] < s[j]
  }

  lemma {:induction false} WorkingDaysStrictlyIncreasing(first: Day, last: Day, weekend: seq<int>, vacations: seq<Day>)
    ensures StrictlyIncreasing(WorkingDays(first, last, weekend, vacations))
    decreases last - first
  {
    if first <= last {
      WorkingDaysStrictlyIncreasing(first, last - 1, weekend, vacations);
      var prev := WorkingDays(first, last - 1, weekend, vacations);
      var tail := if IsWorkingDay(last, weekend, vacations) then [last] else [];
      assert WorkingDays(first, last, weekend, vacations) == prev + tail;
      assert forall i :: 0 <= i < |prev| ==> prev[i] < last;
    }
  }

  /** With no weekend and no vacation, every day of the range is a working day. */
  lemma {:induction false} WorkingDaysAllDays(first: Day, last: Day)
    requires first <= last + 1
    ensures |WorkingDays(first, last, [], [])| == last - first + 1
    decreases last - first
  {
    if first <= last {
      WorkingDaysAllDays(first, last - 1);
    }
  }
}
