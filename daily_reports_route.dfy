/** The daily report handlers: who may use them, the per-school per-day
    report with its totals computed from the class reports, the update
    that recomputes them and replaces the class reports, the auto-fill
    of class attendance from the attendance table, and the list pagination.
    A numeric field the client leaves out is 0 here (`x || 0`). */
module DailyReportsRoute {
  import opened Common

  /** `checkReportPermission`: only these three roles pass. */
  function ReportPermission(role: Option<string>): (ok: bool)
    ensures ok <==> role == Some("admin") || role == Some("administrator") || role == Some("supervisor")
  {
    match role
    case None => false
    case Some(r) => r == "admin" || r == "administrator" || r == "supervisor"
  }

  /** One class's line of a daily report. */
  datatype ClassReport = ClassReport(
    classId: string, teacherId: string, enrolled: int, present: int, absent: int, pages: int)

  datatype Totals = Totals(
    classes: nat, students: int, present: int, absent: int, teachers: nat, pages: int, newStudents: int)

  const Zero := Totals(0, 0, 0, 0, 0, 0, 0)

  /** The totals after adding one class report. */
  function Add(t: Totals, c: ClassReport): Totals {
    Totals(t.classes + 1, t.students + c.enrolled, t.present + c.present, t.absent + c.absent,
      t.teachers + (if |c.teacherId| > 0 then 1 else 0), t.pages + c.pages, t.newStudents)
  }

  /** The totals of a list of class reports. */
  function TotalsOf(rs: seq<ClassReport>): (t: Totals)
    ensures t.classes == |rs| && t.teachers <= t.classes && t.newStudents == 0
    decreases |rs|
  {
    if rs == [] then Zero else Add(TotalsOf(rs[..|rs| - 1]), rs[|rs| - 1])
  }

  /** Totals are additive: the totals of two lists together are the sums of
      their totals, field by field. */
  lemma {:induction false} TotalsAppend(a: seq<ClassReport>, b: seq<ClassReport>)
    ensures var t := TotalsOf(a + b); var x := TotalsOf(a); var y := TotalsOf(b);
      t == Totals(x.classes + y.classes, x.students + y.students, x.present + y.present,
        x.absent + y.absent, x.teachers + y.teachers, x.pages + y.pages, 0)
    decreases |b|
  {
    if b == [] {
      assert a + b == a;
    } else {
      assert (a + b)[..|a + b| - 1] == a + b[..|b| - 1];
      TotalsAppend(a, b[..|b| - 1]);
    }
  }

  /** The `forEach` of POST and PUT that accumulates the totals. */
  method ComputeTotals(rs: seq<ClassReport>) returns (t: Totals)
    ensures t == TotalsOf(rs)
  {
    t := Totals(|rs|, 0, 0, 0, 0, 0, 0);
    var i := 0;
    while i < |rs|
      invariant 0 <= i <= |rs|
      invariant t == TotalsOf(rs[..i]).(classes := |rs|)
    {
      assert rs[..i + 1][..i] == rs[..i];
      var c := rs[i];
      t := t.(students := t.students + c.enrolled, present := t.present + c.present,
        absent := t.absent + c.absent, pages := t.pages + c.pages,
        teachers := t.teachers + if |c.teacherId| > 0 then 1 else 0);
      i := i + 1;
    }
    assert rs[..i] == rs;
  }

  datatype DailyReport = DailyReport(
    schoolId: string, date: string, reporterId: string, notes: string, totals: Totals, classReports: seq<ClassReport>)

  datatype Reply = Forbidden | MissingFields | Duplicate | NotFound | Created(id: nat) | Updated | Deleted

  /** No two reports share a school and a date. */
  predicate OnePerSchoolDay(reports: map<nat, DailyReport>) {
    forall a, b :: a in reports && b in reports && a != b ==>
      (reports[a].schoolId, reports[a].date) != (reports[b].schoolId, reports[b].date)
  }

  predicate ExistsFor(reports: map<nat, DailyReport>, schoolId: string, date: string) {
    exists id :: id in reports && reports[id].schoolId == schoolId && reports[id].date == date
  }

  class DailyReports {
    var reports: map<nat, DailyReport>
    var nextId: nat

    ghost predicate Valid()
      reads this
    {
      (forall id :: id in reports ==> id < nextId) && OnePerSchoolDay(reports)
    }

    constructor ()
      ensures Valid() && reports == map[]
    {
      reports := map[];
      nextId := 1;
    }

    /** POST /: 403 for other roles, 400 without school or date, 400 when
        the school already has a report for that date; otherwise the
        report is stored with its computed totals and its class reports. */
    method Create(role: Option<string>, reporterId: string, schoolId: string, date: string, notes: string,
                  classReports: seq<ClassReport>) returns (reply: Reply)
      requires Valid()
      modifies this
      ensures Valid()
      ensures !ReportPermission(role) ==> reply == Forbidden
      ensures ReportPermission(role) && (|schoolId| == 0 || |date| == 0) ==> reply == MissingFields
      ensures ReportPermission(role) && |schoolId| > 0 && |date| > 0 ==>
        (reply == Duplicate <==> ExistsFor(old(reports), schoolId, date))
      ensures reply.Created? ==> reply.id !in old(reports)
      ensures reply.Created? ==>
        reports == old(reports)[reply.id := DailyReport(schoolId, date, reporterId, notes, TotalsOf(classReports), classReports)]
      ensures !reply.Created? ==> reports == old(reports)
    {
      if !ReportPermission(role) {
        return Forbidden;
      }
      if |schoolId| == 0 || |date| == 0 {
        return MissingFields;
      }
      if exists id :: id in reports && reports[id].schoolId == schoolId && reports[id].date == date {
        return Duplicate;
      }
      var totals := ComputeTotals(classReports);
      var id := nextId;
      reports := reports[id := DailyReport(schoolId, date, reporterId, notes, totals, classReports)];
      nextId := nextId + 1;
      reply := Created(id);
    }

    /** PUT /:id: 404 for an unknown report; otherwise the notes and totals
        are replaced and the class reports are replaced wholesale; school,
        date and reporter stay. */
    method Update(role: Option<string>, id: nat, notes: string, classReports: seq<ClassReport>) returns (reply: Reply)
      requires Valid()
      modifies this
      ensures Valid()
      ensures !ReportPermission(role) ==> reply == Forbidden
      ensures ReportPermission(role) ==> (reply == NotFound <==> id !in old(reports))
      ensures reply == Updated ==>
        reports == old(reports)[id := old(reports)[id].(notes := notes, totals := TotalsOf(classReports), classReports := classReports)]
      ensures reply != Updated ==> reports == old(reports)
    {
      if !ReportPermission(role) {
        return Forbidden;
      }
      if id !in reports {
        return NotFound;
      }
      var totals := ComputeTotals(classReports);
      reports := reports[id := reports[id].(notes := notes, totals := totals, classReports := classReports)];
      reply := Updated;
    }

    /** DELETE /:id: 404 for an unknown report; otherwise the report goes,
        its class reports with it. */
    method Delete(role: Option<string>, id: nat) returns (reply: Reply)
      requires Valid()
      modifies this
      ensures Valid()
      ensures !ReportPermission(role) ==> reply == Forbidden
      ensures reply == Deleted <==> ReportPermission(role) && id in old(reports)
      ensures reply == Deleted ==> reports == old(reports) - {id}
      ensures reply != Deleted ==> reports == old(reports)
    {
      if !ReportPermission(role) {
        return Forbidden;
      }
      if id !in reports {
        return NotFound;
      }
      reports := reports - {id};
      reply := Deleted;
    }
  }

  /** Auto-fill for one class: no records means everyone is absent; fewer
      records than enrolled students adds the missing ones to the absent. */
  function FillCounts(enrolled: int, records: int, present: int, absent: int): (r: (int, int))
    ensures records == 0 ==> r == (0, enrolled)
    ensures records != 0 && records < enrolled ==> r == (present, absent + enrolled - records)
    ensures records != 0 && records >= enrolled ==> r == (present, absent)
  {
    if records == 0 then (0, enrolled)
    else if records < enrolled then (present, absent + (enrolled - records))
    else (present, absent)
  }

  /** When every record is either present or absent and no class has more
      records than enrolled students, auto-fill accounts for every enrolled
      student exactly once. */
  lemma FillAccountsForEveryone(enrolled: int, records: int, present: int, absent: int)
    requires 0 <= present && 0 <= absent && present + absent == records <= enrolled
    ensures FillCounts(enrolled, records, present, absent).0 + FillCounts(enrolled, records, present, absent).1 == enrolled
    ensures FillCounts(enrolled, records, present, absent).0 == present
  {
  }

  /** What the attendance table says about one active class on the date. */
  datatype ClassStats = ClassStats(classId: string, teacherId: Option<string>, enrolled: int,
                                   records: int, present: int, absent: int)

  function FillClass(s: ClassStats): (c: ClassReport)
    ensures c.enrolled == s.enrolled && c.pages == 0
    ensures (c.present, c.absent) == FillCounts(s.enrolled, s.records, s.present, s.absent)
  {
    var counts := FillCounts(s.enrolled, s.records, s.present, s.absent);
    ClassReport(s.classId, if s.teacherId.Some? then s.teacherId.value else "", s.enrolled, counts.0, counts.1, 0)
  }

  function FillAll(stats: seq<ClassStats>): (rs: seq<ClassReport>)
    ensures |rs| == |stats| && forall i :: 0 <= i < |stats| ==> rs[i] == FillClass(stats[i])
  {
    seq(|stats|, i requires 0 <= i < |stats| => FillClass(stats[i]))
  }

  /** The auto-fill summary, computed with `reduce` and `filter`. */
  datatype Summary = Summary(classes: nat, students: int, present: int, absent: int, teachers: nat)

  function WithTeacher(rs: seq<ClassReport>): (n: nat)
    ensures n <= |rs|
  {
    if rs == [] then 0 else WithTeacher(rs[..|rs| - 1]) + if |rs[|rs| - 1].teacherId| > 0 then 1 else 0
  }

  function SummaryOf(rs: seq<ClassReport>): Summary {
    Summary(|rs|,
      Sum(seq(|rs|, i requires 0 <= i < |rs| => rs[i].enrolled)),
      Sum(seq(|rs|, i requires 0 <= i < |rs| => rs[i].present)),
      Sum(seq(|rs|, i requires 0 <= i < |rs| => rs[i].absent)),
      WithTeacher(rs))
  }

  /** The summary the auto-fill returns agrees with the totals a report
      built from the same class reports would store. */
  lemma {:induction false} SummaryIsTotals(rs: seq<ClassReport>)
    ensures var s := SummaryOf(rs); var t := TotalsOf(rs);
      s == Summary(t.classes, t.students, t.present, t.absent, t.teachers)
    decreases |rs|
  {
    if rs != [] {
      var n := |rs| - 1;
      var init := rs[..n];
      SummaryIsTotals(init);
      assert seq(|rs|, i requires 0 <= i < |rs| => rs[i].enrolled)[..n] == seq(n, i requires 0 <= i < n => init[i].enrolled);
      assert seq(|rs|, i requires 0 <= i < |rs| => rs[i].present)[..n] == seq(n, i requires 0 <= i < n => init[i].present);
      assert seq(|rs|, i requires 0 <= i < |rs| => rs[i].absent)[..n] == seq(n, i requires 0 <= i < n => init[i].absent);
    }
  }

  /** `offset = (page - 1) * limit`. */
  function Offset(page: int, limit: int): int {
    (page - 1) * limit
  }

  /** `pages = Math.ceil(total / limit)`. The limit comes from the query
      unchecked; a limit of 0 divides by zero, which JSON reports as null
      (None here), and a negative one has already failed the LIMIT clause. */
  function PageCount(total: nat, limit: int): (pages: Option<int>)
    ensures pages.Some? <==> limit > 0
    ensures pages.Some? ==> pages.value >= 0
  {
    if limit > 0 then Some(CeilDiv(total, limit)) else None
  }

  /** The pages 1..pages split the rows: each row falls on exactly one of
      them, and no page beyond them holds a row. */
  lemma PagesCoverRows(total: nat, limit: int, row: nat)
    requires limit > 0 && row < total
    ensures var p := row / limit + 1;
      1 <= p <= PageCount(total, limit).value && Offset(p, limit) <= row < Offset(p, limit) + limit
    ensures Offset(PageCount(total, limit).value + 1, limit) >= total
  {
    var p := row / limit + 1;
    var pages := PageCount(total, limit).value;
    DivBounds(row, limit);
    assert (p - 1) * limit <= row;
  }
}
