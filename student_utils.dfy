/** The student pages' progress helpers: pages and Quran progress in
    memorisation order, progress toward a memorisation goal, the three-part goal
    bar, the ayah choices of a surah and the colour ladders. The surah table is
    the page's table, a parameter (see SurahTable). A missing or unparsable
    student field is 0, which is what `parseInt(x) || 0` makes of it. */
module StudentUtils {
  import opened Common
  import opened SurahTable
  import QuranData
  import QuranUtils

  /** `calculatePagesForAyah`. */
  function PagesForAyah(t: seq<Surah>, surahId: int, ayah: int): (r: int)
    requires WellFormed(t)
    ensures Find(t, surahId).None? ==> r == 0
    ensures Find(t, surahId).Some? ==> r <= Find(t, surahId).value.totalPages
    ensures Find(t, surahId).Some? && ayah >= Find(t, surahId).value.ayahCount ==> r == Find(t, surahId).value.totalPages
    ensures 0 <= ayah ==> 0 <= r
  {
    match Find(t, surahId)
    case None => 0
    case Some(s) => QuranData.PagesWithin(ayah, s.ayahCount, s.totalPages)
  }

  /** The page count of the row at `pos`, or 0 where the loop skips a position. */
  function PagesAt(t: seq<Surah>, pos: int): (n: int)
    requires WellFormed(t)
    ensures 1 <= pos <= |t| ==> n == t[pos - 1].totalPages
    ensures !(1 <= pos <= |t|) ==> n == 0
  {
    match RowAt(t, pos)
    case Some(s) => s.totalPages
    case None => 0
  }

  /** The pages of the positions `a` up to but excluding `b`. */
  function FullPages(t: seq<Surah>, a: int, b: int): int
    requires WellFormed(t)
    decreases b - a
  {
    if b <= a then 0 else FullPages(t, a, b - 1) + PagesAt(t, b - 1)
  }

  lemma {:induction false} FullAyahsMonotone(t: seq<Surah>, a: int, b: int, c: int)
    requires WellFormed(t) && a <= b <= c
    ensures FullAyahs(t, a, b) <= FullAyahs(t, a, c)
    decreases c - b
  {
    if b < c {
      FullAyahsMonotone(t, a, b, c - 1);
      assert FullAyahs(t, a, c) == FullAyahs(t, a, c - 1) + CountAt(t, c - 1);
    }
  }

  /** `calculateQuranProgress` for a numeric ayah over the page's table; the
      `reduce` over every row adds the same ayahs as the positions 1..|t|. */
  method QuranProgress(t: seq<Surah>, totalQuranPages: int, surahId: int, ayah: int) returns (r: QuranUtils.Progress)
    requires WellFormed(t)
    ensures surahId == 0 || ayah == 0 || Find(t, surahId).None? ==> r == QuranUtils.NoProgress
    ensures surahId != 0 && ayah != 0 && Find(t, surahId).Some? ==>
      && r.Progress?
      && r.totalAyahs == FullAyahs(t, 1, |t| + 1)
      && r.memorizedAyahs == FullAyahs(t, 1, Position(t, surahId)) + ayah
      && r.completedSurahs == Position(t, surahId) - 1 + (if ayah == Find(t, surahId).value.ayahCount then 1 else 0)
      && r.currentSurah == surahId
      && r.remainingAyahs == r.totalAyahs - r.memorizedAyahs
      && r.totalPages == totalQuranPages
      && r.memorizedPages == FullPages(t, 1, Position(t, surahId)) + PagesForAyah(t, surahId, ayah)
      && r.remainingPages == totalQuranPages - r.memorizedPages
  {
    if surahId == 0 || ayah == 0 {
      return QuranUtils.NoProgress;
    }
    var current := Find(t, surahId);
    if current.None? {
      return QuranUtils.NoProgress;
    }
    var totalAyahs := FullAyahs(t, 1, |t| + 1);
    var currentPosition := Position(t, surahId);
    var memorizedAyahs, memorizedPages := 0, 0;
    var pos := 1;
    while pos < currentPosition
      invariant 1 <= pos <= currentPosition
      invariant memorizedAyahs == FullAyahs(t, 1, pos)
      invariant memorizedPages == FullPages(t, 1, pos)
    {
      var row := RowAt(t, pos);
      if row.Some? {
        memorizedAyahs := memorizedAyahs + row.value.ayahCount;
        memorizedPages := memorizedPages + row.value.totalPages;
      }
      pos := pos + 1;
    }
    memorizedAyahs := memorizedAyahs + ayah;
    memorizedPages := memorizedPages + PagesForAyah(t, surahId, ayah);
    var completedSurahs := currentPosition - 1;
    if ayah == current.value.ayahCount {
      completedSurahs := completedSurahs + 1;
    }
    r := QuranUtils.Progress(totalAyahs, memorizedAyahs, completedSurahs, surahId,
                             totalAyahs - memorizedAyahs, totalQuranPages, memorizedPages,
                             totalQuranPages - memorizedPages);
  }

  /** Within the current surah the memorised ayahs stay within the whole table,
      so the remaining ayahs are never negative. */
  lemma ProgressAyahBounds(t: seq<Surah>, surahId: int, ayah: int)
    requires WellFormed(t) && Find(t, surahId).Some?
    requires 1 <= ayah <= Find(t, surahId).value.ayahCount
    ensures 0 < FullAyahs(t, 1, Position(t, surahId)) + ayah <= FullAyahs(t, 1, |t| + 1)
  {
    var p := Position(t, surahId);
    PositionRoundTrip(t, surahId, p);
    FullAyahsNonNegative(t, 1, p);
    FullAyahsMonotone(t, 1, p + 1, |t| + 1);
  }

  // Progress toward a goal.

  datatype Student = Student(memorizedSurahId: int, memorizedAyah: int, targetSurahId: int, targetAyah: int)

  datatype Goal = Goal(percentage: int, memorizedVerses: int, totalGoalVerses: int)

  const NoGoal := Goal(0, 0, 0)

  /** What the loop without a memorised surah adds at `pos`: the whole surah,
      or at the target only up to the target ayah. */
  function LeadInTerm(t: seq<Surah>, pos: int, target: int, targetAyah: int): int
    requires WellFormed(t)
  {
    if RowAt(t, pos).None? then 0
    else if pos == target then Min(targetAyah, CountAt(t, pos))
    else CountAt(t, pos)
  }

  /** The sum of LeadInTerm over the positions 1 up to but excluding `upto`. */
  function LeadIn(t: seq<Surah>, target: int, targetAyah: int, upto: int): int
    requires WellFormed(t)
    decreases upto
  {
    if upto <= 1 then 0 else LeadIn(t, target, targetAyah, upto - 1) + LeadInTerm(t, upto - 1, target, targetAyah)
  }

  /** What the loop from one position `lo` to a later position `hi` adds at
      `pos`: the rest of the first surah, the start of the last, whole surahs between. */
  function SpanTerm(t: seq<Surah>, pos: int, lo: int, hi: int, loAyah: int, hiAyah: int): int
    requires WellFormed(t)
  {
    if RowAt(t, pos).None? then 0
    else if pos == lo then CountAt(t, pos) - loAyah
    else if pos == hi then hiAyah
    else CountAt(t, pos)
  }

  /** The sum of SpanTerm over the positions `lo` up to but excluding `upto`. */
  function Span(t: seq<Surah>, lo: int, hi: int, loAyah: int, hiAyah: int, upto: int): int
    requires WellFormed(t)
    decreases upto - lo
  {
    if upto <= lo then 0 else Span(t, lo, hi, loAyah, hiAyah, upto - 1) + SpanTerm(t, upto - 1, lo, hi, loAyah, hiAyah)
  }

  function Head(t: seq<Surah>, lo: int, loAyah: int): int
    requires WellFormed(t)
  {
    if lo >= 1 then CountAt(t, lo) - loAyah else 0
  }

  lemma SpanFirst(t: seq<Surah>, lo: int, hi: int, loAyah: int, hiAyah: int)
    requires WellFormed(t) && 0 <= lo < hi <= |t|
    ensures Span(t, lo, hi, loAyah, hiAyah, lo + 1) == Head(t, lo, loAyah)
  {
    assert Span(t, lo, hi, loAyah, hiAyah, lo + 1) == SpanTerm(t, lo, lo, hi, loAyah, hiAyah);
  }

  lemma {:induction false} SpanPrefix(t: seq<Surah>, lo: int, hi: int, loAyah: int, hiAyah: int, upto: int)
    requires WellFormed(t) && 0 <= lo < upto <= hi <= |t|
    ensures Span(t, lo, hi, loAyah, hiAyah, upto) == Head(t, lo, loAyah) + FullAyahs(t, lo + 1, upto)
    decreases upto - lo
  {
    if upto > lo + 1 {
      SpanPrefix(t, lo, hi, loAyah, hiAyah, upto - 1);
      var term := SpanTerm(t, upto - 1, lo, hi, loAyah, hiAyah);
      assert term == CountAt(t, upto - 1);
      assert Span(t, lo, hi, loAyah, hiAyah, upto) == Span(t, lo, hi, loAyah, hiAyah, upto - 1) + term;
      assert FullAyahs(t, lo + 1, upto) == FullAyahs(t, lo + 1, upto - 1) + CountAt(t, upto - 1);
    } else {
      SpanFirst(t, lo, hi, loAyah, hiAyah);
    }
  }

  /** From a position before the target: the rest of the current surah, every
      surah in between, and the target's ayahs up to the target ayah. */
  lemma SpanClosedForm(t: seq<Surah>, lo: int, hi: int, loAyah: int, hiAyah: int)
    requires WellFormed(t) && 0 <= lo < hi <= |t|
    ensures Span(t, lo, hi, loAyah, hiAyah, hi + 1) == Head(t, lo, loAyah) + FullAyahs(t, lo + 1, hi) + hiAyah
  {
    SpanPrefix(t, lo, hi, loAyah, hiAyah, hi);
  }

  lemma {:induction false} LeadInPrefix(t: seq<Surah>, target: int, targetAyah: int, upto: int)
    requires WellFormed(t) && 1 <= upto <= target
    ensures LeadIn(t, target, targetAyah, upto) == FullAyahs(t, 1, upto)
    decreases upto
  {
    if upto > 1 {
      LeadInPrefix(t, target, targetAyah, upto - 1);
    }
  }

  /** Without a memorised surah: every surah before the target and the target
      surah up to the target ayah, capped at its length. */
  lemma LeadInClosedForm(t: seq<Surah>, target: int, targetAyah: int)
    requires WellFormed(t) && 1 <= target <= |t|
    ensures LeadIn(t, target, targetAyah, target + 1) == FullAyahs(t, 1, target) + Min(targetAyah, CountAt(t, target))
  {
    LeadInPrefix(t, target, targetAyah, target);
  }

  /** The goal is reached: the memorised surah comes after the target's
      position, or at it with at least the target ayah. */
  predicate GoalReached(t: seq<Surah>, st: Student) {
    var cp, tp := Position(t, st.memorizedSurahId), Position(t, st.targetSurahId);
    st.memorizedSurahId != 0 && (cp > tp || (cp == tp && st.memorizedAyah >= st.targetAyah))
  }

  /** The verse total the goal loops compute before the final check. */
  function GoalVerses(t: seq<Surah>, st: Student): int
    requires WellFormed(t)
  {
    var cp, tp := Position(t, st.memorizedSurahId), Position(t, st.targetSurahId);
    if st.memorizedSurahId == 0 then LeadIn(t, tp, st.targetAyah, tp + 1)
    else if GoalReached(t, st) then 1
    else if cp == tp then st.targetAyah - st.memorizedAyah
    else Span(t, cp, tp, st.memorizedAyah, st.targetAyah, tp + 1)
  }

  lemma LeadInStep(t: seq<Surah>, target: int, targetAyah: int, pos: int)
    requires WellFormed(t) && pos >= 1
    ensures !(pos <= |t|) ==> LeadIn(t, target, targetAyah, pos + 1) == LeadIn(t, target, targetAyah, pos)
    ensures pos <= |t| && pos == target ==>
      LeadIn(t, target, targetAyah, pos + 1) == LeadIn(t, target, targetAyah, pos) + Min(targetAyah, t[pos - 1].ayahCount)
    ensures pos <= |t| && pos != target ==>
      LeadIn(t, target, targetAyah, pos + 1) == LeadIn(t, target, targetAyah, pos) + t[pos - 1].ayahCount
  {
  }

  /** The loop without a memorised surah: positions 1 through the target. */
  method LeadInLoop(t: seq<Surah>, target: int, targetAyah: int) returns (total: int)
    requires WellFormed(t) && target >= 0
    ensures total == LeadIn(t, target, targetAyah, target + 1)
  {
    total := 0;
    var pos := 1;
    while pos <= target
      invariant 1 <= pos <= target + 1
      invariant total == LeadIn(t, target, targetAyah, pos)
    {
      LeadInStep(t, target, targetAyah, pos);
      var row := RowAt(t, pos);
      if row.Some? {
        if pos == target {
          total := total + Min(targetAyah, row.value.ayahCount);
        } else {
          total := total + row.value.ayahCount;
        }
      }
      pos := pos + 1;
    }
  }

  /** The loop from position `lo` through a later position `hi`. */
  method SpanLoop(t: seq<Surah>, lo: int, hi: int, loAyah: int, hiAyah: int) returns (total: int)
    requires WellFormed(t) && lo <= hi
    ensures total == Span(t, lo, hi, loAyah, hiAyah, hi + 1)
  {
    total := 0;
    var pos := lo;
    while pos <= hi
      invariant lo <= pos <= hi + 1
      invariant total == Span(t, lo, hi, loAyah, hiAyah, pos)
    {
      assert Span(t, lo, hi, loAyah, hiAyah, pos + 1) == total + SpanTerm(t, pos, lo, hi, loAyah, hiAyah);
      var row := RowAt(t, pos);
      if row.Some? {
        if pos == lo {
          total := total + (row.value.ayahCount - loAyah);
        } else if pos == hi {
          total := total + hiAyah;
        } else {
          total := total + row.value.ayahCount;
        }
      }
      pos := pos + 1;
    }
  }

  /** `calculateStudentGoalProgress`. */
  method GoalProgress(t: seq<Surah>, st: Student) returns (g: Goal)
    requires WellFormed(t)
    ensures st.targetSurahId == 0 || st.targetAyah == 0 || GoalVerses(t, st) <= 0 ==> g == NoGoal
    ensures st.targetSurahId != 0 && st.targetAyah != 0 && GoalVerses(t, st) > 0 ==>
      g.totalGoalVerses == GoalVerses(t, st)
    ensures g.memorizedVerses == 0 || g.memorizedVerses == g.totalGoalVerses
    ensures g.percentage == 0 || g.percentage == 100
    ensures st.targetSurahId != 0 && st.targetAyah != 0 ==> (g == Goal(100, 1, 1) <==> GoalReached(t, st))
    ensures st.targetSurahId != 0 && st.targetAyah != 0 && GoalVerses(t, st) > 0 && !GoalReached(t, st) ==>
      g == Goal(0, 0, GoalVerses(t, st))
  {
    if st.targetSurahId == 0 || st.targetAyah == 0 {
      return NoGoal;
    }
    var currentPosition := Position(t, st.memorizedSurahId);
    var targetPosition := Position(t, st.targetSurahId);
    var total, memorized := 0, 0;
    if st.memorizedSurahId == 0 {
      total := LeadInLoop(t, targetPosition, st.targetAyah);
    } else if currentPosition > targetPosition {
      total, memorized := 1, 1;
    } else if currentPosition == targetPosition {
      if st.memorizedAyah >= st.targetAyah {
        total, memorized := 1, 1;
      } else {
        total := st.targetAyah - st.memorizedAyah;
      }
    } else {
      total := SpanLoop(t, currentPosition, targetPosition, st.memorizedAyah, st.targetAyah);
    }
    if total <= 0 {
      return NoGoal;
    }
    g := Goal(Min(100, Percent(memorized, total)), memorized, total);
  }

  /** The three sections of the goal bar. */
  datatype Bar = Bar(totalGoalVerses: int, baselineVerses: int, newProgressVerses: int, remainingVerses: int,
                     baselinePercentage: int, newProgressPercentage: int, remainingPercentage: int)

  /** The verses from the baseline (the memorised point, or the start of
      al-Fatiha) to the target, as the bar counts them. */
  function BarVerses(t: seq<Surah>, st: Student): int
    requires WellFormed(t)
  {
    var baseId := if st.memorizedSurahId != 0 then st.memorizedSurahId else 1;
    var baseAyah := if st.memorizedSurahId != 0 then st.memorizedAyah else 0;
    var bp, tp := Position(t, baseId), Position(t, st.targetSurahId);
    if bp == tp then st.targetAyah - baseAyah
    else if bp < tp then Span(t, bp, tp, baseAyah, st.targetAyah, tp + 1)
    else 1
  }

  /** Starting from nothing memorised toward a non-negative target ayah, the bar's total is never negative. */
  lemma BarVersesFromStart(t: seq<Surah>, st: Student)
    requires WellFormed(t) && st.memorizedSurahId == 0 && st.targetAyah >= 0
    ensures BarVerses(t, st) >= 0
  {
    var bp, tp := Position(t, 1), Position(t, st.targetSurahId);
    if bp < tp {
      SpanClosedForm(t, bp, tp, 0, st.targetAyah);
      FullAyahsNonNegative(t, bp + 1, tp);
    }
  }

  /** `calculateGoalProgressBar`. The memorised point is both the baseline and
      the current point, so before the target is reached the new progress is
      `max(0, currentAyah - baselineAyah)`, which is 0. */
  method GoalProgressBar(t: seq<Surah>, st: Student) returns (b: Bar)
    requires WellFormed(t)
    ensures st.targetSurahId == 0 || st.targetAyah == 0 ==> b == Bar(0, 0, 0, 0, 0, 0, 0)
    ensures b.baselineVerses == 0 && b.baselinePercentage == 0
    ensures st.targetSurahId != 0 && st.targetAyah != 0 ==>
      && b.totalGoalVerses == BarVerses(t, st)
      && (GoalReached(t, st) ==> b.newProgressVerses == b.totalGoalVerses && b.remainingVerses == 0)
      && (!GoalReached(t, st) && st.memorizedSurahId != 0 ==> b.newProgressVerses == 0 && b.remainingVerses == Max(0, b.totalGoalVerses))
      && (st.memorizedSurahId == 0 ==> b.newProgressVerses == 0 && b.remainingVerses == b.totalGoalVerses)
    ensures st.targetAyah >= 0 ==> b.remainingVerses >= 0
    ensures b.totalGoalVerses > 0 ==>
      b.newProgressPercentage == Percent(b.newProgressVerses, b.totalGoalVerses)
      && b.remainingPercentage == Percent(b.remainingVerses, b.totalGoalVerses)
    ensures b.totalGoalVerses <= 0 ==> b.newProgressPercentage == 0 && b.remainingPercentage == 0
  {
    if st.targetSurahId == 0 || st.targetAyah == 0 {
      return Bar(0, 0, 0, 0, 0, 0, 0);
    }
    var baselineSurahId := if st.memorizedSurahId != 0 then st.memorizedSurahId else 1;
    var baselineAyah := if st.memorizedSurahId != 0 then st.memorizedAyah else 0;
    var baselinePosition := Position(t, baselineSurahId);
    var targetPosition := Position(t, st.targetSurahId);
    var total := 0;
    if baselinePosition == targetPosition {
      total := st.targetAyah - baselineAyah;
    } else if baselinePosition < targetPosition {
      total := SpanLoop(t, baselinePosition, targetPosition, baselineAyah, st.targetAyah);
    } else {
      total := 1;
    }
    var newProgress, remaining := 0, total;
    if st.memorizedSurahId != 0 {
      var currentPosition := Position(t, st.memorizedSurahId);
      if currentPosition > targetPosition || (currentPosition == targetPosition && st.memorizedAyah >= st.targetAyah) {
        newProgress, remaining := total, 0;
      } else {
        newProgress := Max(0, st.memorizedAyah - baselineAyah);
        remaining := Max(0, total - newProgress);
      }
    } else if st.targetAyah >= 0 {
      BarVersesFromStart(t, st);
    }
    var newPct := if total > 0 then Percent(newProgress, total) else 0;
    var remainingPct := if total > 0 then Percent(remaining, total) else 0;
    b := Bar(total, 0, newProgress, remaining, 0, newPct, remainingPct);
  }

  /** `generateAyahOptions`: 1 through the surah's ayah count, or nothing. */
  method AyahOptions(t: seq<Surah>, surahId: int) returns (options: seq<int>)
    requires WellFormed(t)
    ensures surahId == 0 || Find(t, surahId).None? ==> options == []
    ensures surahId != 0 && Find(t, surahId).Some? ==>
      |options| == Find(t, surahId).value.ayahCount && forall i :: 0 <= i < |options| ==> options[i] == i + 1
  {
    if surahId == 0 {
      return [];
    }
    var surah := Find(t, surahId);
    if surah.None? {
      return [];
    }
    options := [];
    var i := 1;
    while i <= surah.value.ayahCount
      invariant 1 <= i <= surah.value.ayahCount + 1
      invariant |options| == i - 1 && forall k :: 0 <= k < |options| ==> options[k] == k + 1
    {
      options := options + [i];
      i := i + 1;
    }
  }

  // The colour ladders for a progress percentage.

  /** The shared ladder: 4 from 90, 3 from 70, 2 from 50, 1 from 30, else 0. */
  function ProgressBand(percentage: real): (band: int)
    ensures 0 <= band <= 4
  {
    if percentage >= 90.0 then 4
    else if percentage >= 70.0 then 3
    else if percentage >= 50.0 then 2
    else if percentage >= 30.0 then 1
    else 0
  }

  /** `getProgressColor`. */
  function ProgressColor(percentage: real): string {
    if percentage >= 90.0 then "text-green-600"
    else if percentage >= 70.0 then "text-blue-600"
    else if percentage >= 50.0 then "text-yellow-600"
    else if percentage >= 30.0 then "text-orange-600"
    else "text-red-600"
  }

  /** `getProgressBgColor`. */
  function ProgressBgColor(percentage: real): string {
    if percentage >= 90.0 then "bg-green-500"
    else if percentage >= 70.0 then "bg-blue-500"
    else if percentage >= 50.0 then "bg-yellow-500"
    else if percentage >= 30.0 then "bg-orange-500"
    else "bg-red-500"
  }

  const TextColors: seq<string> := ["text-red-600", "text-orange-600", "text-yellow-600", "text-blue-600", "text-green-600"]
  const BgColors: seq<string> := ["bg-red-500", "bg-orange-500", "bg-yellow-500", "bg-blue-500", "bg-green-500"]

  /** The text and background colours always come from the same band, and a
      higher percentage never lands in a lower band. */
  lemma ColoursShareBands(p: real, q: real)
    ensures ProgressColor(p) == TextColors[ProgressBand(p)]
    ensures ProgressBgColor(p) == BgColors[ProgressBand(p)]
    ensures p <= q ==> ProgressBand(p) <= ProgressBand(q)
  {
  }
}
