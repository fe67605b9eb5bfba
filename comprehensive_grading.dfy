/** The comprehensive grading page: the colour and rating ladders, how the
    weight of the attendance course is found for a class, and the list of
    course columns a class shows. A value that `Number` would turn into NaN
    is None; grades and weights are whole numbers. */
module ComprehensiveGrading {
  import opened Common

  // Ladders.

  datatype Color = Green | Blue | Yellow | Orange | Red

  /** Lower is better. */
  function Rank(c: Color): nat {
    match c
    case Green => 0
    case Blue => 1
    case Yellow => 2
    case Orange => 3
    case Red => 4
  }

  /** `getGradeColor`: 90 / 80 / 70 / 60. */
  function GradeColor(grade: int): (c: Color)
    ensures c == Green <==> grade >= 90
    ensures c == Red <==> grade < 60
  {
    if grade >= 90 then Green
    else if grade >= 80 then Blue
    else if grade >= 70 then Yellow
    else if grade >= 60 then Orange
    else Red
  }

  /** `getAttendanceColor`: 95 / 85 / 75, with no blue step. */
  function AttendanceColor(rate: int): (c: Color)
    ensures c != Blue
    ensures c == Green <==> rate >= 95
    ensures c == Red <==> rate < 75
  {
    if rate >= 95 then Green
    else if rate >= 85 then Yellow
    else if rate >= 75 then Orange
    else Red
  }

  /** A higher grade never gets a worse colour. */
  lemma GradeColorMonotone(a: int, b: int)
    requires a <= b
    ensures Rank(GradeColor(b)) <= Rank(GradeColor(a))
  {
  }

  lemma AttendanceColorMonotone(a: int, b: int)
    requires a <= b
    ensures Rank(AttendanceColor(b)) <= Rank(AttendanceColor(a))
  {
  }

  datatype Rating = NoValue | Excellent | VeryGood | Good | Pass | Weak

  function RatingText(r: Rating): string {
    match r
    case NoValue => "-"
    case Excellent => "ممتاز"
    case VeryGood => "جيد جدا"
    case Good => "جيد"
    case Pass => "مقبول"
    case Weak => "ضعيف"
  }

  function RatingRank(r: Rating): nat {
    match r
    case NoValue => 5
    case Excellent => 0
    case VeryGood => 1
    case Good => 2
    case Pass => 3
    case Weak => 4
  }

  /** `getRatingLabel`: null gives "-", then the 90 / 80 / 70 / 60 ladder. */
  function RatingLabel(value: Option<int>): (r: Rating)
    ensures r == NoValue <==> value.None?
    ensures r == Excellent <==> value.Some? && value.value >= 90
    ensures r == Weak <==> value.Some? && value.value < 60
  {
    match value
    case None => NoValue
    case Some(v) =>
      if v >= 90 then Excellent
      else if v >= 80 then VeryGood
      else if v >= 70 then Good
      else if v >= 60 then Pass
      else Weak
  }

  /** The rating and the grade colour use the same steps. */
  lemma RatingFollowsGradeColor(v: int)
    ensures RatingRank(RatingLabel(Some(v))) == Rank(GradeColor(v))
  {
  }

  lemma RatingMonotone(a: int, b: int)
    requires a <= b
    ensures RatingRank(RatingLabel(Some(b))) <= RatingRank(RatingLabel(Some(a)))
  {
  }

  // Attendance weight.

  const Attendance: string := "المواظبة"
  const Presence: string := "الحضور"

  /** The names tried, in this order, before any fuzzy match. */
  const ExplicitNames: seq<string> := ["نسبة الحضور", "الحضور والغياب", Presence, Attendance]

  /** `isAttendanceCourse`. */
  predicate IsAttendanceCourse(name: string) {
    |name| > 0 && (Contains(name, Presence) || Contains(name, Attendance))
  }

  /** `Number(x) || 0`. */
  function NumOr0(x: Option<int>): int {
    if x.Some? then x.value else 0
  }

  datatype Course = Course(name: string, percentage: Option<int>)

  /** `course_percentages`: an object, so its keys are distinct. */
  type Percentages = seq<(string, Option<int>)>

  function Lookup(p: Percentages, key: string): (r: Option<Option<int>>)
    ensures r.Some? <==> exists i :: 0 <= i < |p| && p[i].0 == key
    ensures r.Some? ==> exists i :: 0 <= i < |p| && p[i] == (key, r.value)
  {
    if |p| == 0 then None else if p[0].0 == key then Some(p[0].1) else Lookup(p[1..], key)
  }

  /** The first explicit name present as a key. */
  function FirstExplicitKey(p: Percentages, names: seq<string>): (r: Option<string>)
    ensures r.Some? ==> r.value in names && Lookup(p, r.value).Some?
    ensures r.None? <==> forall n :: n in names ==> Lookup(p, n).None?
  {
    if |names| == 0 then None
    else if Lookup(p, names[0]).Some? then Some(names[0])
    else FirstExplicitKey(p, names[1..])
  }

  /** The first key, in object order, that mentions attendance. */
  function FirstFuzzyKey(p: Percentages): (r: Option<nat>)
    ensures r.Some? ==> r.value < |p| && IsAttendanceCourse(p[r.value].0)
    ensures r.Some? ==> forall j :: 0 <= j < r.value ==> !IsAttendanceCourse(p[j].0)
    ensures r.None? ==> forall j :: 0 <= j < |p| ==> !IsAttendanceCourse(p[j].0)
  {
    if |p| == 0 then None
    else if IsAttendanceCourse(p[0].0) then Some(0)
    else
      var k := FirstFuzzyKey(p[1..]);
      if k.Some? then Some(k.value + 1) else None
  }

  /** `getAttendanceWeight`: an explicit key is used before any fuzzy one. */
  function WeightFromPercentages(p: Percentages): (w: int)
    ensures FirstExplicitKey(p, ExplicitNames).Some? ==>
      w == NumOr0(Lookup(p, FirstExplicitKey(p, ExplicitNames).value).value)
    ensures FirstExplicitKey(p, ExplicitNames).None? && FirstFuzzyKey(p).Some? ==>
      w == NumOr0(p[FirstFuzzyKey(p).value].1)
    ensures FirstExplicitKey(p, ExplicitNames).None? && FirstFuzzyKey(p).None? ==> w == 0
  {
    var explicit := FirstExplicitKey(p, ExplicitNames);
    if explicit.Some? then NumOr0(Lookup(p, explicit.value).value)
    else
      var fuzzy := FirstFuzzyKey(p);
      if fuzzy.Some? then NumOr0(p[fuzzy.value].1) else 0
  }

  /** `courses.find(course => course.name === name)`. */
  function FindCourse(courses: seq<Course>, name: string): (r: Option<Course>)
    ensures r.Some? ==> r.value in courses && r.value.name == name
    ensures r.None? <==> forall c :: c in courses ==> c.name != name
  {
    if |courses| == 0 then None
    else if courses[0].name == name then Some(courses[0])
    else FindCourse(courses[1..], name)
  }

  function FirstExplicitCourse(courses: seq<Course>, names: seq<string>): (r: Option<Course>)
    ensures r.Some? ==> r.value in courses && r.value.name in names
    ensures r.None? <==> forall n :: n in names ==> FindCourse(courses, n).None?
  {
    if |names| == 0 then None
    else if FindCourse(courses, names[0]).Some? then FindCourse(courses, names[0])
    else FirstExplicitCourse(courses, names[1..])
  }

  function FirstAttendanceCourse(courses: seq<Course>): (r: Option<Course>)
    ensures r.Some? ==> r.value in courses && IsAttendanceCourse(r.value.name)
    ensures r.Some? ==> exists i :: (0 <= i < |courses| && courses[i] == r.value
      && forall j :: 0 <= j < i ==> !IsAttendanceCourse(courses[j].name))
    ensures r.None? <==> forall c :: c in courses ==> !IsAttendanceCourse(c.name)
  {
    if |courses| == 0 then None
    else if IsAttendanceCourse(courses[0].name) then Some(courses[0])
    else FirstAttendanceCourse(courses[1..])
  }

  /** `getAttendanceWeightFromCourses`; a missing course list gives 0. */
  function WeightFromCourses(courses: Option<seq<Course>>): (w: int)
    ensures courses.None? ==> w == 0
    ensures courses.Some? && FirstExplicitCourse(courses.value, ExplicitNames).Some? ==>
      w == NumOr0(FirstExplicitCourse(courses.value, ExplicitNames).value.percentage)
    ensures courses.Some? && FirstExplicitCourse(courses.value, ExplicitNames).None? ==>
      w == (var fuzzy := FirstAttendanceCourse(courses.value); if fuzzy.Some? then NumOr0(fuzzy.value.percentage) else 0)
    ensures w != 0 ==> courses.Some? && exists c :: c in courses.value && IsAttendanceCourse(c.name)
  {
    if courses.None? then 0
    else
      var explicit := FirstExplicitCourse(courses.value, ExplicitNames);
      if explicit.Some? then
        ExplicitIsAttendance(explicit.value.name);
        NumOr0(explicit.value.percentage)
      else
        var fuzzy := FirstAttendanceCourse(courses.value);
        if fuzzy.Some? then NumOr0(fuzzy.value.percentage) else 0
  }

  lemma ExplicitIsAttendance(name: string)
    requires name in ExplicitNames
    ensures IsAttendanceCourse(name)
  {
    if name == Attendance {
      assert OccursAt(name, Attendance, 0);
    } else if name == Presence {
      assert OccursAt(name, Presence, 0);
    } else if name == ExplicitNames[0] {
      assert OccursAt(name, Presence, 5);
    } else {
      assert OccursAt(name, Presence, 0);
    }
  }

  datatype ClassItem = ClassItem(
    attendanceWeight: Option<int>, courses: Option<seq<Course>>, coursePercentages: Percentages,
    studentGradeKeys: seq<seq<string>>)

  /** `resolveAttendanceWeight`: a positive direct weight, else a positive
      weight from the courses, else the percentages object. */
  function ResolveAttendanceWeight(c: ClassItem): (w: int)
    ensures c.attendanceWeight.Some? && c.attendanceWeight.value > 0 ==> w == c.attendanceWeight.value
    ensures !(c.attendanceWeight.Some? && c.attendanceWeight.value > 0) && WeightFromCourses(c.courses) > 0 ==>
      w == WeightFromCourses(c.courses)
    ensures !(c.attendanceWeight.Some? && c.attendanceWeight.value > 0) && WeightFromCourses(c.courses) <= 0 ==>
      w == WeightFromPercentages(c.coursePercentages)
  {
    if c.attendanceWeight.Some? && c.attendanceWeight.value > 0 then c.attendanceWeight.value
    else if WeightFromCourses(c.courses) > 0 then WeightFromCourses(c.courses)
    else WeightFromPercentages(c.coursePercentages)
  }

  /** Without any attendance course, percentage key or direct weight, the weight is 0. */
  lemma NoAttendanceNoWeight(c: ClassItem)
    requires c.attendanceWeight.None?
    requires c.courses.Some? ==> forall k :: k in c.courses.value ==> !IsAttendanceCourse(k.name)
    requires forall j :: 0 <= j < |c.coursePercentages| ==> !IsAttendanceCourse(c.coursePercentages[j].0)
    ensures ResolveAttendanceWeight(c) == 0
  {
    var p := c.coursePercentages;
    forall n | n in ExplicitNames
      ensures Lookup(p, n).None?
    {
      ExplicitIsAttendance(n);
    }
  }

  /** `getCourseWeight`. */
  function CourseWeight(c: ClassItem, name: string): (w: int)
    ensures |name| == 0 ==> w == 0
    ensures name == Attendance ==> w == ResolveAttendanceWeight(c)
    ensures (|name| > 0 && name != Attendance && c.courses.Some? && FindCourse(c.courses.value, name).Some?
             && FindCourse(c.courses.value, name).value.percentage.Some?) ==>
      w == FindCourse(c.courses.value, name).value.percentage.value
    ensures (|name| > 0 && name != Attendance
             && (c.courses.None? || FindCourse(c.courses.value, name).None?
                 || FindCourse(c.courses.value, name).value.percentage.None?)) ==>
      w == NumOr0(Lookup(c.coursePercentages, name).GetOr(None))
  {
    if |name| == 0 then 0
    else if name == Attendance then ResolveAttendanceWeight(c)
    else
      var course := if c.courses.Some? then FindCourse(c.courses.value, name) else None;
      if course.Some? && course.value.percentage.Some? then course.value.percentage.value
      else NumOr0(Lookup(c.coursePercentages, name).GetOr(None))
  }

  // Course columns.

  ghost function Elems(xs: seq<string>): set<string> {
    set x | x in xs
  }

  predicate Distinct(xs: seq<string>) {
    forall i, j :: 0 <= i < j < |xs| ==> xs[i] != xs[j]
  }

  function Keys(p: Percentages): (r: seq<string>)
    ensures |r| == |p| && forall i :: 0 <= i < |p| ==> r[i] == p[i].0
  {
    seq(|p|, i requires 0 <= i < |p| => p[i].0)
  }

  /** The names of the courses that have one. */
  ghost function CourseNames(courses: seq<Course>): set<string> {
    set c | c in courses && |c.name| > 0 :: c.name
  }

  ghost function GradeKeys(keys: seq<seq<string>>): set<string> {
    set k, x | k in keys && x in k :: x
  }

  /** Every name the Set collects before the clean-up pass. */
  ghost function Collected(c: ClassItem): set<string> {
    (if c.courses.Some? then CourseNames(c.courses.value) else {})
    + Elems(Keys(c.coursePercentages)) + GradeKeys(c.studentGradeKeys)
    + (if NeedsAttendanceColumn(c) then {Attendance} else {})
  }

  predicate NeedsAttendanceColumn(c: ClassItem) {
    (c.courses.Some? && FirstAttendanceCourse(c.courses.value).Some?) || ResolveAttendanceWeight(c) > 0
  }

  lemma ElemsAppend(xs: seq<string>, x: string)
    ensures Elems(xs + [x]) == Elems(xs) + {x}
  {
    assert forall y :: y in xs + [x] <==> y in xs || y == x;
  }

  /** `names.add(x)`: a Set keeps its insertion order and ignores a repeat. */
  function Add(names: seq<string>, x: string): (r: seq<string>)
    requires Distinct(names)
    ensures Distinct(r) && Elems(r) == Elems(names) + {x}
    ensures |names| <= |r| && r[..|names|] == names
  {
    ElemsAppend(names, x);
    if x in names then names else names + [x]
  }

  /** The Set after `names.add(x)` for each `x` of `xs`, in turn. */
  function AddedAll(names: seq<string>, xs: seq<string>): (r: seq<string>)
    requires Distinct(names)
    ensures Distinct(r) && Elems(r) == Elems(names) + Elems(xs)
    ensures |names| <= |r| && r[..|names|] == names
    decreases |xs|
  {
    if xs == [] then names
    else
      var init := xs[..|xs| - 1];
      var prev := AddedAll(names, init);
      assert xs == init + [xs[|xs| - 1]];
      ElemsAppend(init, xs[|xs| - 1]);
      var r := Add(prev, xs[|xs| - 1]);
      assert r[..|names|] == r[..|prev|][..|names|];
      r
  }

  /** Adding two runs of names is adding their concatenation. */
  lemma {:induction false} AddedAllConcat(names: seq<string>, a: seq<string>, b: seq<string>)
    requires Distinct(names)
    ensures AddedAll(names, a + b) == AddedAll(AddedAll(names, a), b)
    decreases |b|
  {
    if b != [] {
      var bInit := b[..|b| - 1];
      assert (a + b)[..|a + b| - 1] == a + bInit;
      assert (a + b)[|a + b| - 1] == b[|b| - 1];
      AddedAllConcat(names, a, bInit);
    } else {
      assert a + b == a;
    }
  }

  /** `names.add(x)` for each `x` of `xs`. */
  method AddAll(names: seq<string>, xs: seq<string>) returns (r: seq<string>)
    requires Distinct(names)
    ensures r == AddedAll(names, xs)
  {
    r := names;
    var i := 0;
    while i < |xs|
      invariant 0 <= i <= |xs|
      invariant r == AddedAll(names, xs[..i])
    {
      assert xs[..i + 1][..i] == xs[..i];
      r := Add(r, xs[i]);
      i := i + 1;
    }
    assert xs[..i] == xs;
  }

  /** The non-empty course names, in the courses' order. */
  function NamedCourses(courses: seq<Course>): (r: seq<string>)
    ensures Elems(r) == CourseNames(courses)
    decreases |courses|
  {
    if courses == [] then []
    else
      var init := courses[..|courses| - 1];
      var last := courses[|courses| - 1];
      assert courses == init + [last];
      var r := NamedCourses(init) + (if |last.name| > 0 then [last.name] else []);
      assert Elems(r) == Elems(NamedCourses(init)) + (if |last.name| > 0 then {last.name} else {});
      r
  }

  /** Adding one more name to the run. */
  lemma AddedAllSnoc(names: seq<string>, xs: seq<string>, x: string)
    requires Distinct(names)
    ensures AddedAll(names, xs + [x]) == Add(AddedAll(names, xs), x)
  {
    assert (xs + [x])[..|xs|] == xs;
  }

  /** One more course adds its name when it has one. */
  lemma NamedCoursesSnoc(courses: seq<Course>, i: nat)
    requires i < |courses|
    ensures NamedCourses(courses[..i + 1])
      == NamedCourses(courses[..i]) + (if |courses[i].name| > 0 then [courses[i].name] else [])
  {
    assert courses[..i + 1][..i] == courses[..i];
  }

  /** The `classItem.courses.forEach` pass. */
  method AddCourseNames(courses: seq<Course>) returns (r: seq<string>)
    ensures r == AddedAll([], NamedCourses(courses))
    ensures Distinct(r) && Elems(r) == CourseNames(courses)
  {
    r := [];
    var i := 0;
    while i < |courses|
      invariant 0 <= i <= |courses|
      invariant r == AddedAll([], NamedCourses(courses[..i]))
    {
      NamedCoursesSnoc(courses, i);
      if |courses[i].name| > 0 {
        AddedAllSnoc([], NamedCourses(courses[..i]), courses[i].name);
        r := Add(r, courses[i].name);
      } else {
        assert NamedCourses(courses[..i + 1]) == NamedCourses(courses[..i]);
      }
      i := i + 1;
    }
    assert courses[..i] == courses;
  }

  /** Every student's grade keys, one after another. */
  function AllGradeKeys(keys: seq<seq<string>>): (r: seq<string>)
    ensures Elems(r) == GradeKeys(keys)
    decreases |keys|
  {
    if keys == [] then []
    else
      var init := keys[..|keys| - 1];
      assert keys == init + [keys[|keys| - 1]];
      var r := AllGradeKeys(init) + keys[|keys| - 1];
      assert Elems(r) == Elems(AllGradeKeys(init)) + Elems(keys[|keys| - 1]);
      r
  }

  /** The `students.forEach` pass over each student's grade keys. */
  method AddGradeKeys(names: seq<string>, keys: seq<seq<string>>) returns (r: seq<string>)
    requires Distinct(names)
    ensures r == AddedAll(names, AllGradeKeys(keys))
  {
    r := names;
    var s := 0;
    while s < |keys|
      invariant 0 <= s <= |keys|
      invariant r == AddedAll(names, AllGradeKeys(keys[..s]))
    {
      assert keys[..s + 1][..s] == keys[..s];
      AddedAllConcat(names, AllGradeKeys(keys[..s]), keys[s]);
      r := AddAll(r, keys[s]);
      s := s + 1;
    }
    assert keys[..s] == keys;
  }

  /** The names the clean-up pass keeps: every name that is not
      attendance-like, and the attendance column itself, in order. */
  function WithoutAttendanceLike(xs: seq<string>): (r: seq<string>)
    ensures forall x :: x in r <==> x in xs && (x == Attendance || !IsAttendanceCourse(x))
    ensures Distinct(xs) ==> Distinct(r)
    decreases |xs|
  {
    if xs == [] then []
    else
      var init := xs[..|xs| - 1];
      var last := xs[|xs| - 1];
      assert xs == init + [last];
      var r := WithoutAttendanceLike(init) + (if last == Attendance || !IsAttendanceCourse(last) then [last] else []);
      assert Distinct(xs) ==> Distinct(init) && last !in init;
      r
  }

  /** The final pass deleting every attendance-like name but the column's own. */
  method DropAttendanceLike(collected: seq<string>) returns (names: seq<string>)
    requires Distinct(collected)
    ensures names == WithoutAttendanceLike(collected)
    ensures Distinct(names)
  {
    names := [];
    var j := 0;
    while j < |collected|
      invariant 0 <= j <= |collected|
      invariant names == WithoutAttendanceLike(collected[..j])
    {
      assert collected[..j + 1][..j] == collected[..j];
      if collected[j] == Attendance || !IsAttendanceCourse(collected[j]) {
        names := names + [collected[j]];
      }
      j := j + 1;
    }
    assert collected[..j] == collected;
  }

  /** The Set's contents in insertion order before the clean-up pass. */
  function CollectedInOrder(c: ClassItem): (r: seq<string>)
    ensures Distinct(r) && Elems(r) == Collected(c)
  {
    var courses := if c.courses.Some? then NamedCourses(c.courses.value) else [];
    var fromCourses := AddedAll([], courses);
    var withKeys := AddedAll(fromCourses, Keys(c.coursePercentages));
    var named := AddedAll(withKeys, AllGradeKeys(c.studentGradeKeys));
    assert Elems(fromCourses) == if c.courses.Some? then CourseNames(c.courses.value) else {};
    assert Elems(named) == Elems(fromCourses) + Elems(Keys(c.coursePercentages)) + GradeKeys(c.studentGradeKeys);
    if NeedsAttendanceColumn(c) then Add(named, Attendance) else named
  }

  /** `getCourseNamesForClass`: every course name, percentage key and grade
      key once, then the attendance column when the class has one, and no
      other attendance-like name. */
  method CourseNamesForClass(c: ClassItem) returns (names: seq<string>)
    ensures names == WithoutAttendanceLike(CollectedInOrder(c))
    ensures Distinct(names)
    ensures forall x :: x in names <==> x in Collected(c) && (x == Attendance || !IsAttendanceCourse(x))
    ensures NeedsAttendanceColumn(c) ==> Attendance in names
    ensures forall x :: x in names && IsAttendanceCourse(x) ==> x == Attendance
  {
    var collected: seq<string> := [];
    if c.courses.Some? {
      collected := AddCourseNames(c.courses.value);
    }
    collected := AddAll(collected, Keys(c.coursePercentages));
    collected := AddGradeKeys(collected, c.studentGradeKeys);
    if NeedsAttendanceColumn(c) {
      collected := Add(collected, Attendance);
    }
    names := DropAttendanceLike(collected);
  }
}
