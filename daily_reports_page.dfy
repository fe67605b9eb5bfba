/** The daily report form: the list of per-class reports the supervisor
    edits, the automatic absent count, and what is submitted. A report is an
    object whose fields are named by strings; a value typed into an input is
    text, a value the page computes is a number. */
module DailyReportsPage {
  import opened Common
  import Lists

  datatype Value = Text(s: string) | Num(n: int)

  type Report = map<string, Value>

  const ClassIdField: string := "class_id"
  const TeacherIdField: string := "teacher_id"
  const EnrolledField: string := "students_enrolled"
  const PresentField: string := "students_present"
  const AbsentField: string := "students_absent"
  const PagesField: string := "pages_taught"
  const TopicField: string := "lesson_topic"
  const NotesField: string := "class_notes"

  /** The fields the server expects for each class report. */
  const Expected: set<string> := {ClassIdField, TeacherIdField, EnrolledField, PresentField,
                                  AbsentField, PagesField, TopicField, NotesField}

  /** The report `addClassReport` appends. */
  const BlankReport: Report := map[ClassIdField := Text(""), TeacherIdField := Text(""),
    EnrolledField := Num(0), PresentField := Num(0), AbsentField := Num(0), PagesField := Num(0),
    TopicField := Text(""), NotesField := Text("")]

  /** `parseInt(x) || 0`; a missing field is `undefined`, which parses to NaN. */
  function IntOr0(r: Report, field: string): int {
    if field !in r then 0
    else match r[field]
      case Num(n) => n
      case Text(s) => ParseIntOr(s, 0)
  }

  function AddReport(reports: seq<Report>): (r: seq<Report>)
    ensures |r| == |reports| + 1 && r[..|reports|] == reports
    ensures r[|reports|].Keys == Expected
    ensures forall f :: f in Expected - {ClassIdField, TeacherIdField, TopicField, NotesField} ==>
      r[|reports|][f] == Num(0)
  {
    reports + [BlankReport]
  }

  /** `updateClassReport`: set the field; a change to the enrolled or present
      count recomputes the absent count as max(0, enrolled - present). */
  function UpdateReport(reports: seq<Report>, index: int, field: string, value: Value): (r: seq<Report>)
    requires 0 <= index < |reports|
    ensures |r| == |reports|
    ensures forall j :: 0 <= j < |reports| && j != index ==> r[j] == reports[j]
    ensures field in r[index] && r[index][field] == value
    ensures r[index].Keys == reports[index].Keys + {field} +
      (if field == EnrolledField || field == PresentField then {AbsentField} else {})
    ensures forall f :: f in reports[index] && f != field && f != AbsentField ==> r[index][f] == reports[index][f]
    ensures field == EnrolledField || field == PresentField ==>
      r[index][AbsentField] == Num(Max(0, IntOr0(r[index], EnrolledField) - IntOr0(r[index], PresentField)))
    ensures field != EnrolledField && field != PresentField ==> r[index] == reports[index][field := value]
  {
    var set1 := reports[index][field := value];
    var updated :=
      if field == EnrolledField || field == PresentField
      then set1[AbsentField := Num(Max(0, IntOr0(set1, EnrolledField) - IntOr0(set1, PresentField)))]
      else set1;
    reports[index := updated]
  }

  /** After any update of a count the absent count is never negative. */
  lemma AbsentNeverNegative(reports: seq<Report>, index: int, field: string, value: Value)
    requires 0 <= index < |reports|
    requires field == EnrolledField || field == PresentField
    ensures var r := UpdateReport(reports, index, field, value)[index];
      r[AbsentField].Num? && r[AbsentField].n >= 0
      && r[AbsentField].n >= IntOr0(r, EnrolledField) - IntOr0(r, PresentField)
  {
  }

  /** The cleaned report: exactly the expected fields, missing ones undefined. */
  function Project(r: Report): (p: map<string, Option<Value>>)
    ensures p.Keys == Expected
    ensures forall f :: f in Expected ==> (p[f].Some? <==> f in r) && (f in r ==> p[f] == Some(r[f]))
  {
    map f | f in Expected :: if f in r then Some(r[f]) else None
  }

  lemma ExpectedHasEightFields()
    ensures |Expected| == 8
  {
  }

  datatype Mode = Create | Edit

  datatype Submission = Submission(schoolId: string, date: string, reports: seq<map<string, Option<Value>>>)

  /** `handleSubmit`: refused without a school or a date; otherwise every
      report is cut to the expected fields. */
  function Submit(schoolId: string, date: string, reports: seq<Report>): (r: Option<Submission>)
    ensures r.None? <==> |schoolId| == 0 || |date| == 0
    ensures r.Some? ==> |r.value.reports| == |reports|
    ensures r.Some? ==> forall i :: 0 <= i < |reports| ==> r.value.reports[i].Keys == Expected
    ensures r.Some? ==> forall i :: 0 <= i < |reports| ==> forall f :: f in Expected && f in reports[i] ==>
      r.value.reports[i][f] == Some(reports[i][f])
  {
    if |schoolId| == 0 || |date| == 0 then None
    else Some(Submission(schoolId, date, seq(|reports|, i requires 0 <= i < |reports| => Project(reports[i]))))
  }

  /** `checkForExistingReport` asks the server only in create mode with both
      a school and a date. */
  function ChecksDuplicate(schoolId: string, date: string, mode: Mode): (ask: bool)
    ensures ask ==> mode == Create
    ensures ask <==> mode == Create && |schoolId| > 0 && |date| > 0
  {
    |schoolId| > 0 && |date| > 0 && mode == Create
  }

  /** The form's state: the report list the page edits. */
  class ReportForm {
    var schoolId: string
    var reportDate: string
    var classReports: seq<Report>

    constructor(schoolId: string, reportDate: string)
      ensures this.schoolId == schoolId && this.reportDate == reportDate && classReports == []
    {
      this.schoolId := schoolId;
      this.reportDate := reportDate;
      classReports := [];
    }

    method AddClassReport()
      modifies this
      ensures classReports == AddReport(old(classReports))
      ensures schoolId == old(schoolId) && reportDate == old(reportDate)
    {
      classReports := classReports + [BlankReport];
    }

    method UpdateClassReport(index: int, field: string, value: Value)
      requires 0 <= index < |classReports|
      modifies this
      ensures classReports == UpdateReport(old(classReports), index, field, value)
      ensures schoolId == old(schoolId) && reportDate == old(reportDate)
    {
      var updated := classReports[index][field := value];
      if field == EnrolledField || field == PresentField {
        var enrolled := IntOr0(updated, EnrolledField);
        var present := IntOr0(updated, PresentField);
        updated := updated[AbsentField := Num(Max(0, enrolled - present))];
      }
      classReports := classReports[index := updated];
    }

    method RemoveClassReport(index: int)
      modifies this
      ensures classReports == Lists.RemoveAt(old(classReports), index)
      ensures schoolId == old(schoolId) && reportDate == old(reportDate)
    {
      if 0 <= index < |classReports| {
        classReports := classReports[..index] + classReports[index + 1..];
      }
    }
  }
}
