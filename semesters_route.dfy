/** Semesters and their courses: only the two administrative roles create
    and change them and only the system admin deletes one; a school has at
    most one semester of a given type and year; the deletion takes the
    semester's grades and courses with it in one transaction; a course made
    for a class belongs to that class's school. Text columns a request may
    leave out are `Option`s (`None` is SQL NULL, which equals nothing). */
module SemestersRoute {
  import opened Common

  /** The request body of a create or an update. A falsy `school_id` is
      `None`. */
  datatype Body = Body(
    kind: Option<string>, year: Option<string>, startDate: Option<string>, endDate: Option<string>,
    displayName: Option<string>, school: Option<string>,
    weekendDays: Option<seq<int>>, vacationDays: Option<seq<string>>)

  datatype Semester = Semester(
    school: Option<string>, kind: Option<string>, year: Option<string>, startDate: Option<string>,
    endDate: Option<string>, displayName: Option<string>, weekendDays: seq<int>, vacationDays: seq<string>)

  /** Friday and Saturday. */
  const DefaultWeekend: seq<int> := [5, 6]

  /** The row the body writes: `weekend_days || [5, 6]` and
      `vacation_days || []`. */
  function Stored(b: Body): (s: Semester)
    ensures b.weekendDays.None? ==> s.weekendDays == DefaultWeekend
    ensures b.weekendDays.Some? ==> s.weekendDays == b.weekendDays.value
    ensures b.vacationDays.None? ==> s.vacationDays == []
    ensures b.vacationDays.Some? ==> s.vacationDays == b.vacationDays.value
    ensures s.school == b.school && s.kind == b.kind && s.year == b.year
  {
    Semester(b.school, b.kind, b.year, b.startDate, b.endDate, b.displayName,
      b.weekendDays.GetOr(DefaultWeekend), b.vacationDays.GetOr([]))
  }

  /** `school_id = $1 AND type = $2 AND year = $3` between a stored row and
      the values asked for: a NULL on either side matches nothing. */
  predicate SameTerm(s: Semester, school: Option<string>, kind: Option<string>, year: Option<string>) {
    s.school.Some? && s.school == school && s.kind.Some? && s.kind == kind && s.year.Some? && s.year == year
  }

  /** A semester other than `except` already holds this school, type and
      year. */
  predicate TermTaken(rows: map<nat, Semester>, school: Option<string>, kind: Option<string>, year: Option<string>, except: int) {
    exists id :: id in rows && id != except && SameTerm(rows[id], school, kind, year)
  }

  /** No two semesters of one school share a type and a year. */
  predicate UniqueTerms(rows: map<nat, Semester>) {
    forall i, j :: i in rows && j in rows && i != j ==> !SameTerm(rows[i], rows[j].school, rows[j].kind, rows[j].year)
  }

  /** Writing a row whose school, type and year no other row holds keeps
      the terms unique; a row without a school never clashes. */
  lemma WriteKeepsUnique(rows: map<nat, Semester>, id: nat, b: Body)
    requires UniqueTerms(rows)
    requires b.school.None? || !TermTaken(rows, b.school, b.kind, b.year, id)
    ensures UniqueTerms(rows[id := Stored(b)])
  {
    var next := rows[id := Stored(b)];
    forall i, j | i in next && j in next && i != j
      ensures !SameTerm(next[i], next[j].school, next[j].kind, next[j].year)
    {
      if i == id {
        assert !SameTerm(rows[j], b.school, b.kind, b.year);
      }
    }
  }

  predicate MayWrite(role: string) {
    role == "admin" || role == "administrator"
  }

  predicate MayDelete(role: string) {
    role == "admin"
  }

  datatype Course = Course(semester: nat, school: Option<string>, classId: Option<string>, name: Option<string>)

  /** The rows of a map whose semester is not `id`. */
  function CoursesWithout(courses: map<nat, Course>, id: nat): (out: map<nat, Course>)
    ensures forall c :: c in out ==> out[c].semester != id
    ensures forall c :: c in courses ==> (c in out <==> courses[c].semester != id) && (c in out ==> out[c] == courses[c])
  {
    map c | c in courses && courses[c].semester != id :: courses[c]
  }

  /** The grades (grade id to semester id) whose semester is not `id`. */
  function GradesWithout(grades: map<nat, nat>, id: nat): (out: map<nat, nat>)
    ensures forall g :: g in out ==> out[g] != id
    ensures forall g :: g in grades ==> (g in out <==> grades[g] != id) && (g in out ==> out[g] == grades[g])
  {
    map g | g in grades && grades[g] != id :: grades[g]
  }

  datatype Reply = Forbidden | NoSchool | SchoolNotFound | TermExists | NotFound | ClassNotFound | Created(id: nat) | Saved | Deleted

  class SemesterStore {
    var schools: set<string>
    /** classes.school_id by class id. */
    var classSchool: map<string, string>
    var semesters: map<nat, Semester>
    var courses: map<nat, Course>
    var grades: map<nat, nat>
    var nextId: nat
    var nextCourse: nat

    predicate Valid()
      reads this
    {
      UniqueTerms(semesters) && (forall id :: id in semesters ==> id < nextId)
      && (forall c :: c in courses ==> c < nextCourse)
    }

    constructor (schools: set<string>, classSchool: map<string, string>)
      ensures Valid()
      ensures this.schools == schools && this.classSchool == classSchool
      ensures semesters == map[] && courses == map[] && grades == map[]
    {
      this.schools := schools;
      this.classSchool := classSchool;
      semesters := map[];
      courses := map[];
      grades := map[];
      nextId := 0;
      nextCourse := 0;
    }

    /** POST /: 403 for other roles, 400 without a school, 404 for an
        unknown school, 400 when the school already has this type and year;
        otherwise the row is stored with its default days. */
    method Create(role: string, b: Body) returns (reply: Reply)
      requires Valid()
      modifies this
      ensures Valid()
      ensures !MayWrite(role) ==> reply == Forbidden
      ensures reply.Created? <==> (MayWrite(role) && b.school.Some? && b.school.value in schools
        && !TermTaken(old(semesters), b.school, b.kind, b.year, -1))
      ensures reply.Created? ==> reply.id !in old(semesters) && semesters == old(semesters)[reply.id := Stored(b)]
      ensures !reply.Created? ==> semesters == old(semesters)
      ensures courses == old(courses) && grades == old(grades) && schools == old(schools) && classSchool == old(classSchool)
    {
      if !MayWrite(role) {
        return Forbidden;
      }
      if b.school.None? {
        return NoSchool;
      }
      if b.school.value !in schools {
        return SchoolNotFound;
      }
      if TermTaken(semesters, b.school, b.kind, b.year, -1) {
        return TermExists;
      }
      var id := nextId;
      WriteKeepsUnique(semesters, id, b);
      semesters := semesters[id := Stored(b)];
      nextId := nextId + 1;
      reply := Created(id);
    }

    /** PUT /:id: 403 for other roles; with a school, 404 for an unknown one
        and 400 when another semester of it has this type and year; 404 for
        an unknown semester; otherwise every column is overwritten, a
        missing school included. */
    method Update(role: string, id: nat, b: Body) returns (reply: Reply)
      requires Valid()
      modifies this
      ensures Valid()
      ensures !MayWrite(role) ==> reply == Forbidden
      ensures reply == Saved <==> (MayWrite(role)
        && (b.school.Some? ==> b.school.value in schools && !TermTaken(old(semesters), b.school, b.kind, b.year, id))
        && id in old(semesters))
      ensures reply == Saved ==> semesters == old(semesters)[id := Stored(b)]
      ensures reply != Saved ==> semesters == old(semesters)
      ensures courses == old(courses) && grades == old(grades) && schools == old(schools) && classSchool == old(classSchool)
    {
      if !MayWrite(role) {
        return Forbidden;
      }
      if b.school.Some? {
        if b.school.value !in schools {
          return SchoolNotFound;
        }
        if TermTaken(semesters, b.school, b.kind, b.year, id) {
          return TermExists;
        }
      }
      if id !in semesters {
        return NotFound;
      }
      WriteKeepsUnique(semesters, id, b);
      semesters := semesters[id := Stored(b)];
      reply := Saved;
    }

    /** DELETE /:id: 403 unless system admin; 404 (rolled back) for an
        unknown semester; otherwise its grades, its courses and the
        semester go together. */
    method Delete(role: string, id: nat) returns (reply: Reply)
      requires Valid()
      modifies this
      ensures Valid()
      ensures reply == Deleted <==> MayDelete(role) && id in old(semesters)
      ensures reply == Deleted ==> (semesters == old(semesters) - {id}
        && courses == CoursesWithout(old(courses), id) && grades == GradesWithout(old(grades), id))
      ensures reply != Deleted ==> semesters == old(semesters) && courses == old(courses) && grades == old(grades)
      ensures schools == old(schools) && classSchool == old(classSchool)
    {
      if !MayDelete(role) {
        return Forbidden;
      }
      if id !in semesters {
        return NotFound;
      }
      grades := GradesWithout(grades, id);
      courses := CoursesWithout(courses, id);
      semesters := semesters - {id};
      reply := Deleted;
    }

    /** POST /:id/classes/:classId/courses: 403 for other roles, 404 for an
        unknown class; otherwise the course takes the class's school. */
    method CreateClassCourse(role: string, semester: nat, classId: string, name: Option<string>) returns (reply: Reply)
      requires Valid()
      modifies this
      ensures Valid()
      ensures reply.Created? <==> MayWrite(role) && classId in classSchool
      ensures reply.Created? ==> (reply.id !in old(courses)
        && courses == old(courses)[reply.id := Course(semester, Some(classSchool[classId]), Some(classId), name)])
      ensures !reply.Created? ==> courses == old(courses)
      ensures semesters == old(semesters) && grades == old(grades) && schools == old(schools) && classSchool == old(classSchool)
    {
      if !MayWrite(role) {
        return Forbidden;
      }
      if classId !in classSchool {
        return ClassNotFound;
      }
      var c := nextCourse;
      courses := courses[c := Course(semester, Some(classSchool[classId]), Some(classId), name)];
      nextCourse := nextCourse + 1;
      reply := Created(c);
    }

    /** POST /:id/courses: 403 for other roles; otherwise the course takes
        the school and class the body names. */
    method CreateCourse(role: string, semester: nat, school: Option<string>, classId: Option<string>, name: Option<string>) returns (reply: Reply)
      requires Valid()
      modifies this
      ensures Valid()
      ensures reply.Created? <==> MayWrite(role)
      ensures reply.Created? ==> reply.id !in old(courses) && courses == old(courses)[reply.id := Course(semester, school, classId, name)]
      ensures !reply.Created? ==> courses == old(courses)
      ensures semesters == old(semesters) && grades == old(grades) && schools == old(schools) && classSchool == old(classSchool)
    {
      if !MayWrite(role) {
        return Forbidden;
      }
      var c := nextCourse;
      courses := courses[c := Course(semester, school, classId, name)];
      nextCourse := nextCourse + 1;
      reply := Created(c);
    }
  }
}
