/** Homework assignments: the list query whose optional filters take
    consecutive placeholders, the creation rules with the default title, the
    COALESCE update that leaves omitted fields alone, the completion and the
    deletion. Today's date is handed in. */
module HomeworkRoute {
  import opened Common
  import opened SqlParams

  /** The columns the list filters test. */
  datatype FilterColumn = ClassCol | StudentCol | StatusCol | CourseCol
  {
    function Name(): string {
      match this
      case ClassCol => "h.class_id"
      case StudentCol => "h.student_id"
      case StatusCol => "h.status"
      case CourseCol => "h.course_id"
    }
  }

  /** The query string of GET /api/homework. */
  datatype ListFilter = ListFilter(classId: Option<string>, studentId: Option<string>, status: Option<string>, courseId: Option<string>)

  /** A filter adds its clause only when truthy. */
  function Filter(v: Option<string>): (r: Option<string>)
    ensures r.Some? <==> Truthy(v)
    ensures r.Some? ==> r == v
  {
    if Truthy(v) then v else None
  }

  function FilterFields(q: ListFilter): seq<Field<FilterColumn, string>> {
    [Field(ClassCol, Filter(q.classId)), Field(StudentCol, Filter(q.studentId)),
     Field(StatusCol, Filter(q.status)), Field(CourseCol, Filter(q.courseId))]
  }

  /** The value a filter column is asked for. */
  function Asked(q: ListFilter, c: FilterColumn): Option<string> {
    match c
    case ClassCol => q.classId
    case StudentCol => q.studentId
    case StatusCol => q.status
    case CourseCol => q.courseId
  }

  /** A column is tested against a value exactly when its filter is that
      non-empty value. */
  lemma FilterTested(q: ListFilter, c: FilterColumn, v: string)
    ensures (c, v) in Provided(FilterFields(q)) <==> Asked(q, c) == Some(v) && |v| > 0
  {
    ProvidedMembers(FilterFields(q), c, v);
    var fs := FilterFields(q);
    assert fs[0] == Field(ClassCol, Filter(q.classId)) && fs[1] == Field(StudentCol, Filter(q.studentId));
    assert fs[2] == Field(StatusCol, Filter(q.status)) && fs[3] == Field(CourseCol, Filter(q.courseId));
  }

  /** GET /api/homework: `AND <column> = $n` for each truthy filter, the
      placeholders numbered from `$1`. */
  method ListQuery(q: ListFilter) returns (clauses: seq<Slot<FilterColumn>>, params: seq<string>)
    ensures Binds(clauses, params, Provided(FilterFields(q)), 1)
    ensures params == Values(Provided(FilterFields(q)))
  {
    var fs := FilterFields(q);
    var next;
    clauses, params, next := NumberFields(fs, []);
    assert [] + Values(Provided(fs)) == Values(Provided(fs));
  }

  /** The `status` of a POST body: missing, JSON null, or a text. The
      destructuring default `status = 'pending'` only fills a missing
      field; a null goes into the row as NULL. */
  datatype StatusField = Undefined | Null | Given(value: string)

  /** The status a POST body inserts. */
  function InsertedStatus(f: StatusField): (s: Option<string>)
    ensures s.None? <==> f.Null?
    ensures f.Undefined? ==> s == Some("pending")
    ensures f.Given? ==> s == Some(f.value)
  {
    match f
    case Undefined => Some("pending")
    case Null => None
    case Given(v) => Some(v)
  }

  /** The POST body; numbers are `None` when absent or null. */
  datatype CreateBody = CreateBody(
    classId: Option<string>, studentId: Option<string>, courseId: Option<string>,
    title: Option<string>, description: Option<string>,
    startSurah: Option<nat>, startAyah: Option<nat>, endSurah: Option<nat>, endAyah: Option<nat>,
    dueDate: Option<string>, status: StatusField)

  datatype Homework = Homework(
    classId: Option<string>, studentId: Option<string>, courseId: Option<string>,
    title: string, description: Option<string>,
    startSurah: nat, startAyah: nat, endSurah: nat, endAyah: nat,
    assignedDate: string, dueDate: Option<string>, status: Option<string>,
    completedDate: Option<string>, gradeId: Option<string>)

  /** `حفظ من سورة ${start_surah} إلى سورة ${end_surah}`. */
  function DefaultTitle(startSurah: nat, endSurah: nat): string {
    "حفظ من سورة " + NatToString(startSurah) + " إلى سورة " + NatToString(endSurah)
  }

  lemma NatToStringInjective(a: nat, b: nat)
    requires NatToString(a) == NatToString(b)
    ensures a == b
  {
    DigitsOfNatToString(a);
    DigitsOfNatToString(b);
  }

  /** Two digit runs followed by text that starts with a non-digit split
      the same way. */
  lemma SplitAfterDigits(a1: string, r1: string, a2: string, r2: string)
    requires AllDigits(a1) && AllDigits(a2) && |a1| >= 1 && |a2| >= 1
    requires r1 != [] && !IsDigit(r1[0]) && r2 != [] && !IsDigit(r2[0])
    requires a1 + r1 == a2 + r2
    ensures a1 == a2 && r1 == r2
  {
    DigitRunOfDigits(a1, r1);
    DigitRunOfDigits(a2, r2);
    assert a1 == (a1 + r1)[..|a1|] && a2 == (a2 + r2)[..|a2|];
    assert r1 == (a1 + r1)[|a1|..] && r2 == (a2 + r2)[|a2|..];
  }

  lemma DropPrefix(p: string, x: string, y: string)
    requires p + x == p + y
    ensures x == y
  {
    assert x == (p + x)[|p|..] && y == (p + y)[|p|..];
  }

  lemma DefaultTitleShape(s: nat, e: nat)
    ensures DefaultTitle(s, e) == "حفظ من سورة " + (NatToString(s) + (" إلى سورة " + NatToString(e)))
  {
    var p, a, m, b := "حفظ من سورة ", NatToString(s), " إلى سورة ", NatToString(e);
    assert p + a + m == p + (a + m);
    assert p + (a + m) + b == p + ((a + m) + b);
    assert (a + m) + b == a + (m + b);
  }

  /** The default title names the range: different surahs give different
      titles. */
  lemma DefaultTitleInjective(s1: nat, e1: nat, s2: nat, e2: nat)
    requires DefaultTitle(s1, e1) == DefaultTitle(s2, e2)
    ensures s1 == s2 && e1 == e2
  {
    var p := "حفظ من سورة ";
    var m := " إلى سورة ";
    var a1, a2 := NatToString(s1), NatToString(s2);
    var b1, b2 := NatToString(e1), NatToString(e2);
    DefaultTitleShape(s1, e1);
    DefaultTitleShape(s2, e2);
    DropPrefix(p, a1 + (m + b1), a2 + (m + b2));
    assert (m + b1)[0] == ' ' && (m + b2)[0] == ' ';
    SplitAfterDigits(a1, m + b1, a2, m + b2);
    NatToStringInjective(s1, s2);
    DropPrefix(m, b1, b2);
    NatToStringInjective(e1, e2);
  }

  /** The creation rules: the whole range, and a class or a student. */
  predicate HasRange(b: CreateBody) {
    TruthyNat(b.startSurah) && TruthyNat(b.startAyah) && TruthyNat(b.endSurah) && TruthyNat(b.endAyah)
  }

  predicate HasTarget(b: CreateBody) {
    Truthy(b.classId) || Truthy(b.studentId)
  }

  /** The inserted row: `x || null` for the optional texts, the title or
      its default, status 'pending' when missing and NULL when null,
      assigned today. */
  function NewHomework(b: CreateBody, today: string): (h: Homework)
    requires HasRange(b)
    ensures h.title == (if Truthy(b.title) then b.title.value else DefaultTitle(b.startSurah.value, b.endSurah.value))
    ensures h.status == InsertedStatus(b.status) && h.assignedDate == today
    ensures h.completedDate.None? && h.gradeId.None?
  {
    Homework(Filter(b.classId), Filter(b.studentId), Filter(b.courseId),
      if Truthy(b.title) then b.title.value else DefaultTitle(b.startSurah.value, b.endSurah.value),
      Filter(b.description), b.startSurah.value, b.startAyah.value, b.endSurah.value, b.endAyah.value,
      today, Filter(b.dueDate), InsertedStatus(b.status), None, None)
  }

  /** The PUT body; `None` is undefined or null, which COALESCE skips. */
  datatype UpdateBody = UpdateBody(
    title: Option<string>, description: Option<string>,
    startSurah: Option<nat>, startAyah: Option<nat>, endSurah: Option<nat>, endAyah: Option<nat>,
    dueDate: Option<string>, status: Option<string>, completedDate: Option<string>, gradeId: Option<string>)

  /** `COALESCE($n, column)` on a column that may be NULL. */
  function CoalesceOpt<T>(v: Option<T>, current: Option<T>): Option<T> {
    if v.Some? then v else current
  }

  /** The row after the COALESCE update. */
  function Updated(h: Homework, b: UpdateBody): Homework {
    h.(title := b.title.GetOr(h.title), description := CoalesceOpt(b.description, h.description),
       startSurah := b.startSurah.GetOr(h.startSurah), startAyah := b.startAyah.GetOr(h.startAyah),
       endSurah := b.endSurah.GetOr(h.endSurah), endAyah := b.endAyah.GetOr(h.endAyah),
       dueDate := CoalesceOpt(b.dueDate, h.dueDate), status := CoalesceOpt(b.status, h.status),
       completedDate := CoalesceOpt(b.completedDate, h.completedDate), gradeId := CoalesceOpt(b.gradeId, h.gradeId))
  }

  /** An omitted field keeps its value, a given one takes it, the target
      and the assignment date never change, and a second identical update
      changes nothing more. */
  lemma UpdatedKeepsOmitted(h: Homework, b: UpdateBody)
    ensures b.title.None? ==> Updated(h, b).title == h.title
    ensures b.title.Some? ==> Updated(h, b).title == b.title.value
    ensures b.status.None? ==> Updated(h, b).status == h.status
    ensures b.status.Some? ==> Updated(h, b).status == b.status
    ensures b.description.None? ==> Updated(h, b).description == h.description
    ensures b.gradeId.None? ==> Updated(h, b).gradeId == h.gradeId
    ensures Updated(h, b).classId == h.classId && Updated(h, b).studentId == h.studentId
      && Updated(h, b).courseId == h.courseId && Updated(h, b).assignedDate == h.assignedDate
    ensures Updated(Updated(h, b), b) == Updated(h, b)
  {
  }

  /** An update that gives nothing leaves the row as it was. */
  lemma EmptyUpdateKeepsRow(h: Homework)
    ensures Updated(h, UpdateBody(None, None, None, None, None, None, None, None, None, None)) == h
  {
  }

  /** The row after POST /:id/complete: completed today, with the grade
      given or none (`grade_id || null`). */
  function Completed(h: Homework, gradeId: Option<string>, today: string): (c: Homework)
    ensures c.status == Some("completed") && c.completedDate == Some(today)
    ensures c.gradeId.Some? <==> Truthy(gradeId)
  {
    h.(status := Some("completed"), completedDate := Some(today), gradeId := Filter(gradeId))
  }

  datatype Reply = MissingRange | MissingTarget | Created(id: nat) | NotFound | Saved | Removed

  class HomeworkStore {
    var rows: map<nat, Homework>
    var nextId: nat

    predicate Valid()
      reads this
    {
      forall id :: id in rows ==> id < nextId
    }

    constructor ()
      ensures Valid() && rows == map[]
    {
      rows := map[];
      nextId := 0;
    }

    /** POST /api/homework: 400 without the whole range, 400 without
        a class or a student; otherwise the new row. */
    method Create(b: CreateBody, today: string) returns (reply: Reply)
      requires Valid()
      modifies this
      ensures Valid()
      ensures !HasRange(b) ==> reply == MissingRange
      ensures HasRange(b) && !HasTarget(b) ==> reply == MissingTarget
      ensures reply.Created? <==> HasRange(b) && HasTarget(b)
      ensures reply.Created? ==> reply.id !in old(rows) && rows == old(rows)[reply.id := NewHomework(b, today)]
      ensures !reply.Created? ==> rows == old(rows)
    {
      if !HasRange(b) {
        return MissingRange;
      }
      if !HasTarget(b) {
        return MissingTarget;
      }
      var id := nextId;
      rows := rows[id := NewHomework(b, today)];
      nextId := nextId + 1;
      reply := Created(id);
    }

    /** PUT /api/homework/:id: 404 for an unknown id; otherwise the
        COALESCE update. */
    method Update(id: nat, b: UpdateBody) returns (reply: Reply)
      requires Valid()
      modifies this
      ensures Valid()
      ensures reply == Saved <==> id in old(rows)
      ensures reply == Saved ==> rows == old(rows)[id := Updated(old(rows)[id], b)]
      ensures reply != Saved ==> rows == old(rows)
    {
      if id !in rows {
        return NotFound;
      }
      rows := rows[id := Updated(rows[id], b)];
      reply := Saved;
    }

    /** DELETE /api/homework/:id: 404 for an unknown id. */
    method Delete(id: nat) returns (reply: Reply)
      requires Valid()
      modifies this
      ensures Valid()
      ensures reply == Removed <==> id in old(rows)
      ensures rows == old(rows) - {id}
    {
      if id !in rows {
        return NotFound;
      }
      rows := rows - {id};
      reply := Removed;
    }

    /** POST /api/homework/:id/complete: 404 for an unknown id. */
    method Complete(id: nat, gradeId: Option<string>, today: string) returns (reply: Reply)
      requires Valid()
      modifies this
      ensures Valid()
      ensures reply == Saved <==> id in old(rows)
      ensures reply == Saved ==> rows == old(rows)[id := Completed(old(rows)[id], gradeId, today)]
      ensures reply != Saved ==> rows == old(rows)
    {
      if id !in rows {
        return NotFound;
      }
      rows := rows[id := Completed(rows[id], gradeId, today)];
      reply := Saved;
    }
  }
}
