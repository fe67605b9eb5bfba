/** The class pages' helpers: the surah name maps and verse counts, goal
    progress counted in mushaf order (from an-Nas at 114 down to the target),
    and the role-based class, school and teacher filters. The surah rows the
    goal progress reads come from the page's surah table (see SurahTable); a
    missing numeric field is 0. */
module ClassUtils {
  import opened Common
  import opened Mushaf
  import SurahTable
  import Lists

  /** `getMaxVerse`: the surah's verse count, or 1 for a name that is not a surah. */
  function MaxVerse(surahName: string): (n: int)
    ensures n >= 1
  {
    var id := IdOfName(surahName);
    if id == 0 then 1 else AyahCount(id)
  }

  /** A surah's name gives its verse count; any other string gives 1. */
  lemma MaxVerseOfName(id: int, s: string)
    ensures IsSurahId(id) ==> MaxVerse(Name(id)) == AyahCount(id)
    ensures (forall k :: IsSurahId(k) ==> Name(k) != s) ==> MaxVerse(s) == 1
  {
    if IsSurahId(id) {
      IdOfNameOfName(id);
    }
    IdOfNameUnknown(s);
  }

  /** `getSurahIdFromName`: the mushaf id, or null. */
  function SurahIdFromName(surahName: string): (r: Option<int>)
    ensures r.Some? ==> IsSurahId(r.value) && Name(r.value) == surahName
    ensures r.None? <==> forall id :: IsSurahId(id) ==> Name(id) != surahName
  {
    IdOfNameUnknown(surahName);
    var id := IdOfName(surahName);
    if id == 0 then None else Some(id)
  }

  /** `getSurahNameFromId`: the surah's name, or null outside 1..114. */
  function SurahNameFromId(surahId: int): (r: Option<string>)
    ensures r.Some? <==> IsSurahId(surahId)
  {
    if IsSurahId(surahId) then Some(Name(surahId)) else None
  }

  /** The two maps are inverse on 1..114. */
  lemma SurahNameIdRoundTrip(id: int)
    requires IsSurahId(id)
    ensures SurahNameFromId(id).Some?
    ensures SurahIdFromName(SurahNameFromId(id).value) == Some(id)
  {
    IdOfNameOfName(id);
  }

  // Goal progress.

  datatype Goal = Goal(percentage: int, memorizedVerses: int, totalGoalVerses: int)

  const NoGoal := Goal(0, 0, 0)

  /** `a || b` on two numeric fields. */
  function FirstSet(a: int, b: int): int {
    if a != 0 then a else b
  }

  /** `getMaxVerseById`: the row's ayah count, or 0. */
  function MaxVerseById(t: seq<SurahTable.Surah>, id: int): (n: int)
    requires SurahTable.WellFormed(t)
    ensures n >= 0
  {
    match SurahTable.Find(t, id)
    case Some(s) => s.ayahCount
    case None => 0
  }

  /** What the descending loop adds at `id`. With no memorised surah
      (`current == 0`) only the target is special. */
  function GoalTerm(t: seq<SurahTable.Surah>, id: int, current: int, target: int, currentAyah: int, targetAyah: int): int
    requires SurahTable.WellFormed(t)
  {
    if current != 0 && id == current then Max(0, MaxVerseById(t, id) - currentAyah)
    else if id == target then targetAyah
    else MaxVerseById(t, id)
  }

  /** The loop's total over the ids `from` down to `down`. */
  function GoalSum(t: seq<SurahTable.Surah>, current: int, target: int, currentAyah: int, targetAyah: int, from: int, down: int): int
    requires SurahTable.WellFormed(t)
    decreases from - down
  {
    if from < down then 0
    else GoalSum(t, current, target, currentAyah, targetAyah, from, down + 1) + GoalTerm(t, down, current, target, currentAyah, targetAyah)
  }

  /** The verses of every surah from `from` down to `down`. */
  function MaxVerses(t: seq<SurahTable.Surah>, from: int, down: int): int
    requires SurahTable.WellFormed(t)
    decreases from - down
  {
    if from < down then 0 else MaxVerses(t, from, down + 1) + MaxVerseById(t, down)
  }

  lemma {:induction false} GoalSumMiddle(t: seq<SurahTable.Surah>, current: int, target: int, currentAyah: int, targetAyah: int, down: int)
    requires SurahTable.WellFormed(t) && current != 0 && target < down <= current
    ensures GoalSum(t, current, target, currentAyah, targetAyah, current, down)
      == Max(0, MaxVerseById(t, current) - currentAyah) + MaxVerses(t, current - 1, down)
    decreases current - down
  {
    if down < current {
      GoalSumMiddle(t, current, target, currentAyah, targetAyah, down + 1);
    }
  }

  /** From a memorised surah with a higher id than the target: the rest of
      the current surah, every surah in between, and the target's first ayahs. */
  lemma GoalSumClosedForm(t: seq<SurahTable.Surah>, current: int, target: int, currentAyah: int, targetAyah: int)
    requires SurahTable.WellFormed(t) && current != 0 && target < current
    ensures GoalSum(t, current, target, currentAyah, targetAyah, current, target)
      == Max(0, MaxVerseById(t, current) - currentAyah) + MaxVerses(t, current - 1, target + 1) + targetAyah
  {
    GoalSumMiddle(t, current, target, currentAyah, targetAyah, target + 1);
  }

  /** The descending loop from `from` through `target`. */
  method DescendingLoop(t: seq<SurahTable.Surah>, from: int, current: int, target: int, currentAyah: int, targetAyah: int)
    returns (total: int)
    requires SurahTable.WellFormed(t)
    ensures total == GoalSum(t, current, target, currentAyah, targetAyah, from, target)
  {
    total := 0;
    var id := from;
    while id >= target
      invariant id >= target - 1 || from < target
      invariant from < target ==> id == from
      invariant total == GoalSum(t, current, target, currentAyah, targetAyah, from, id + 1)
      decreases id - target
    {
      var maxVerse := MaxVerseById(t, id);
      if current != 0 && id == current {
        total := total + Max(0, maxVerse - currentAyah);
      } else if id == target {
        total := total + targetAyah;
      } else {
        total := total + maxVerse;
      }
      id := id - 1;
    }
  }

  /** The memorised surah has reached the target: a lower id than the
      target's, or the same surah at or past the target ayah. */
  predicate Reached(current: int, currentAyah: int, target: int, targetAyah: int) {
    current != 0 && (current < target || (current == target && currentAyah >= targetAyah))
  }

  /** The total before the final check. */
  function GoalVerses(t: seq<SurahTable.Surah>, current: int, currentAyah: int, target: int, targetAyah: int): int
    requires SurahTable.WellFormed(t)
  {
    if current == 0 then GoalSum(t, 0, target, 0, targetAyah, SurahCount, target)
    else if Reached(current, currentAyah, target, targetAyah) then 1
    else if current == target then targetAyah - currentAyah
    else GoalSum(t, current, target, currentAyah, targetAyah, current, target)
  }

  /** `calculateStudentGoalProgress`. The memorised point is read from the
      nested student record first, then from the flat one. */
  method GoalProgress(t: seq<SurahTable.Surah>, nestedSurah: int, flatSurah: int, nestedAyah: int, flatAyah: int,
                      target: int, targetAyah: int) returns (g: Goal)
    requires SurahTable.WellFormed(t)
    ensures var current, currentAyah := FirstSet(nestedSurah, flatSurah), FirstSet(nestedAyah, flatAyah);
      && (target == 0 || targetAyah == 0 || GoalVerses(t, current, currentAyah, target, targetAyah) <= 0 ==> g == NoGoal)
      && (target != 0 && targetAyah != 0 && GoalVerses(t, current, currentAyah, target, targetAyah) > 0 ==>
            g.totalGoalVerses == GoalVerses(t, current, currentAyah, target, targetAyah))
      && (target != 0 && targetAyah != 0 ==> (g == Goal(100, 1, 1) <==> Reached(current, currentAyah, target, targetAyah)))
      && (target != 0 && targetAyah != 0 && GoalVerses(t, current, currentAyah, target, targetAyah) > 0
          && !Reached(current, currentAyah, target, targetAyah) ==>
            g == Goal(0, 0, GoalVerses(t, current, currentAyah, target, targetAyah)))
    ensures 0 <= g.percentage <= 100
    ensures g.memorizedVerses == 0 || g.memorizedVerses == g.totalGoalVerses
  {
    if target == 0 || targetAyah == 0 {
      return NoGoal;
    }
    var current := FirstSet(nestedSurah, flatSurah);
    var currentAyah := FirstSet(nestedAyah, flatAyah);
    var total, memorized := 0, 0;
    if current == 0 {
      total := DescendingLoop(t, SurahCount, 0, target, 0, targetAyah);
    } else if current == target {
      if currentAyah >= targetAyah {
        total, memorized := 1, 1;
      } else {
        total := targetAyah - currentAyah;
      }
    } else if current > target {
      total := DescendingLoop(t, current, current, target, currentAyah, targetAyah);
    } else {
      total, memorized := 1, 1;
    }
    if total <= 0 {
      return NoGoal;
    }
    g := Goal(Min(100, Max(0, Percent(memorized, total))), memorized, total);
  }

  // Role-based filters. A missing school id is 0.

  /** `canManageClass`: the admin manages every class, an administrator the
      classes of their own school, and no other role any. */
  function CanManageClass(classSchoolId: int, role: string, userSchoolId: int): (ok: bool)
    ensures role == "admin" ==> ok
    ensures role != "admin" && role != "administrator" ==> !ok
    ensures role == "administrator" ==> (ok <==> classSchoolId == userSchoolId)
  {
    role == "admin" || (role == "administrator" && classSchoolId == userSchoolId)
  }

  datatype School = School(id: int)
  datatype Class = Class(id: int, schoolId: int)
  datatype Teacher = Teacher(schoolId: int, schools: Option<seq<School>>, schoolIds: Option<seq<int>>)

  function SchoolHasId(id: int): School -> bool {
    (s: School) => s.id == id
  }

  function ClassInSchool(id: int): Class -> bool {
    (c: Class) => c.schoolId == id
  }

  /** `getFilteredSchools`. */
  function FilteredSchools(schools: seq<School>, role: string, userSchoolId: int): (r: seq<School>)
    ensures role == "admin" ==> r == schools
    ensures role != "admin" && !(role == "administrator" && userSchoolId != 0) ==> r == []
    ensures role == "administrator" && userSchoolId != 0 ==>
      (forall i :: 0 <= i < |r| ==> r[i] in schools && r[i].id == userSchoolId)
      && (forall i :: 0 <= i < |schools| && schools[i].id == userSchoolId ==> schools[i] in r)
  {
    if role == "admin" then schools
    else if role == "administrator" && userSchoolId != 0 then Lists.Filter(schools, SchoolHasId(userSchoolId))
    else []
  }

  /** `getFilteredClasses`: unlike the schools, other roles see every class. */
  function FilteredClasses(classes: seq<Class>, role: string, userSchoolId: int): (r: seq<Class>)
    ensures !(role == "administrator" && userSchoolId != 0) ==> r == classes
    ensures role == "administrator" && userSchoolId != 0 ==>
      (forall i :: 0 <= i < |r| ==> r[i] in classes && r[i].schoolId == userSchoolId)
      && (forall i :: 0 <= i < |classes| && classes[i].schoolId == userSchoolId ==> classes[i] in r)
  {
    if role == "admin" then classes
    else if role == "administrator" && userSchoolId != 0 then Lists.Filter(classes, ClassInSchool(userSchoolId))
    else classes
  }

  /** For an administrator with a school, the class list shows exactly the
      classes they may manage. */
  lemma {:induction false} FilteredClassesManageable(classes: seq<Class>, userSchoolId: int, c: Class)
    requires userSchoolId != 0 && c in classes
    ensures c in FilteredClasses(classes, "administrator", userSchoolId) <==>
      CanManageClass(c.schoolId, "administrator", userSchoolId)
  {
    var r := FilteredClasses(classes, "administrator", userSchoolId);
    var i :| 0 <= i < |classes| && classes[i] == c;
    if c in r {
      var j :| 0 <= j < |r| && r[j] == c;
    }
  }

  /** A teacher belongs to a school through its own school id, else through
      its list of schools, else through its list of school ids. */
  predicate TeacherInSchool(teacher: Teacher, schoolId: int) {
    if teacher.schoolId == schoolId then true
    else if teacher.schools.Some? then exists i :: 0 <= i < |teacher.schools.value| && teacher.schools.value[i].id == schoolId
    else if teacher.schoolIds.Some? then schoolId in teacher.schoolIds.value
    else false
  }

  function TeacherInSchoolTest(schoolId: int): Teacher -> bool {
    (teacher: Teacher) => TeacherInSchool(teacher, schoolId)
  }

  /** `getFilteredTeachers`: nothing without a school, otherwise the
      teachers of that school, in order. */
  function FilteredTeachers(teachers: seq<Teacher>, schoolId: int): (r: seq<Teacher>)
    ensures schoolId == 0 ==> r == []
    ensures |r| <= |teachers|
    ensures forall i :: 0 <= i < |r| ==> r[i] in teachers && TeacherInSchool(r[i], schoolId)
    ensures schoolId != 0 ==> forall i :: 0 <= i < |teachers| && TeacherInSchool(teachers[i], schoolId) ==> teachers[i] in r
  {
    if schoolId == 0 then [] else Lists.Filter(teachers, TeacherInSchoolTest(schoolId))
  }
}
