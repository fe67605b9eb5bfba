/** Scope filtering on records: which items a user may see, the query
    restriction added for a role, which user profiles it may open, and which
    fields of a record it is shown. A record is an object of string fields;
    a missing field is `undefined`. */
module ScopeValidator {
  import opened Common
  import opened RoleDefinitions
  import opened PrivilegeChecker
  import Lists

  type Item = map<string, string>

  function Get(item: Item, key: string): Option<string> {
    if key in item then Some(item[key]) else None
  }


  /** `canAccessItem`. */
  predicate CanAccessItem(c: AccessContext, item: Item) {
    match c.role
    case Admin => true
    case Administrator => Get(item, "schoolId") == c.schoolId
    case Supervisor => Get(item, "schoolId") == c.schoolId
    case Teacher =>
      Get(item, "schoolId") == c.schoolId && "classId" in item && Includes(c.classIds, item["classId"])
    case Parent =>
      var key := if Truthy(Get(item, "studentId")) then Get(item, "studentId") else Get(item, "ownerId");
      key.Some? && Includes(c.childrenIds, key.value)
    case Student => Get(item, "ownerId") == Some(c.userId) || Get(item, "studentId") == Some(c.userId)
  }

  /** A teacher sees an item only of its school and one of its classes; a
      student only an item it owns or that is about it. */
  lemma ItemAccessByRole(c: AccessContext, item: Item)
    requires CanAccessItem(c, item)
    ensures c.role == Teacher ==> Get(item, "schoolId") == c.schoolId && c.classIds.Some?
                                  && "classId" in item && item["classId"] in c.classIds.value
    ensures c.role == Student ==> Get(item, "ownerId") == Some(c.userId) || Get(item, "studentId") == Some(c.userId)
  {
  }

  /** `validateDataAccess`. */
  function ValidateDataAccess(c: AccessContext, data: seq<Item>): (r: seq<Item>)
    ensures forall i :: 0 <= i < |r| ==> r[i] in data && CanAccessItem(c, r[i])
    ensures forall i :: 0 <= i < |data| && CanAccessItem(c, data[i]) ==> data[i] in r
    ensures |r| <= |data|
  {
    Lists.Filter(data, (item: Item) => CanAccessItem(c, item))
  }

  // The query restriction.

  datatype Cond = Eq(v: Option<string>) | In(ids: seq<string>)

  /** A query value: a condition on the field, or `$or` over field conditions. */
  datatype QValue = Where(cond: Cond) | AnyOf(clauses: seq<(string, Cond)>)

  type Query = map<string, QValue>

  predicate Holds(v: Option<string>, cond: Cond) {
    match cond
    case Eq(x) => v == x
    case In(ids) => v.Some? && v.value in ids
  }

  predicate MatchesValue(item: Item, key: string, q: QValue) {
    match q
    case Where(cond) => Holds(Get(item, key), cond)
    case AnyOf(clauses) => exists i :: 0 <= i < |clauses| && Holds(Get(item, clauses[i].0), clauses[i].1)
  }

  /** An item satisfies every entry of the query. */
  predicate Matches(item: Item, q: Query) {
    forall k :: k in q ==> MatchesValue(item, k, q[k])
  }

  const ScopeKeys: set<string> := {"schoolId", "classId", "$or"}

  /** `buildScopeQuery`, as written: the base query with the role's keys set.
      A teacher without classes and a parent without children add no id list. */
  function BuildScopeQuery(c: AccessContext, base: Query): (q: Query)
    ensures c.role == Admin ==> q == base
    ensures q.Keys <= base.Keys + ScopeKeys
    ensures forall k :: k in base && k !in ScopeKeys ==> k in q && q[k] == base[k]
  {
    match c.role
    case Admin => base
    case Administrator => base["schoolId" := Where(Eq(c.schoolId))]
    case Supervisor => base["schoolId" := Where(Eq(c.schoolId))]
    case Teacher =>
      var q := base["schoolId" := Where(Eq(c.schoolId))];
      if c.classIds.Some? && |c.classIds.value| > 0 then q["classId" := Where(In(c.classIds.value))] else q
    case Parent =>
      if c.childrenIds.Some? && |c.childrenIds.value| > 0
      then base["$or" := AnyOf([("studentId", In(c.childrenIds.value)), ("ownerId", In(c.childrenIds.value))])]
      else base
    case Student => base["$or" := AnyOf([("ownerId", Eq(Some(c.userId))), ("studentId", Eq(Some(c.userId)))])]
  }

  /** From an empty base, the query selects exactly the items the filter
      accepts, for every role but a parent, and a teacher with no classes. */
  lemma ScopeQueryAgreesWithFilter(c: AccessContext, item: Item)
    requires c.role != Parent
    requires c.role == Teacher ==> c.classIds.Some? && |c.classIds.value| > 0
    ensures Matches(item, BuildScopeQuery(c, map[])) <==> CanAccessItem(c, item)
  {
    var q := BuildScopeQuery(c, map[]);
    if c.role == Teacher {
      assert "schoolId" in q && "classId" in q;
      if Matches(item, q) {
        assert MatchesValue(item, "schoolId", q["schoolId"]);
        assert MatchesValue(item, "classId", q["classId"]);
      }
    } else if c.role == Student {
      assert "$or" in q;
      if Matches(item, q) {
        assert MatchesValue(item, "$or", q["$or"]);
      }
      if CanAccessItem(c, item) {
        var clauses := q["$or"].clauses;
        if Get(item, "ownerId") == Some(c.userId) {
          assert Holds(Get(item, clauses[0].0), clauses[0].1);
        } else {
          assert Holds(Get(item, clauses[1].0), clauses[1].1);
        }
      }
    } else if c.role != Admin {
      assert "schoolId" in q;
      if Matches(item, q) {
        assert MatchesValue(item, "schoolId", q["schoolId"]);
      }
    }
  }

  /** As written, a parent without children gets no restriction at all: an
      item the filter refuses is still selected by the query. */
  lemma ChildlessParentQueryUnrestricted()
    ensures var c := AccessContext("p1", Parent, None, None, Some([]));
      var item: Item := map["studentId" := "s9", "ownerId" := "s9"];
      Matches(item, BuildScopeQuery(c, map[])) && !CanAccessItem(c, item)
  {
    var c := AccessContext("p1", Parent, None, None, Some([]));
    assert BuildScopeQuery(c, map[]) == map[];
  }

  /** The evidently intended query: the id lists are added even when empty,
      so an empty list selects nothing. */
  function ScopeQuery(c: AccessContext, base: Query): (q: Query)
    ensures c.role == Admin ==> q == base
    ensures q.Keys <= base.Keys + ScopeKeys
    ensures forall k :: k in base && k !in ScopeKeys ==> k in q && q[k] == base[k]
  {
    match c.role
    case Admin => base
    case Administrator => base["schoolId" := Where(Eq(c.schoolId))]
    case Supervisor => base["schoolId" := Where(Eq(c.schoolId))]
    case Teacher => base["schoolId" := Where(Eq(c.schoolId))]["classId" := Where(In(c.classIds.GetOr([])))]
    case Parent =>
      var ids := c.childrenIds.GetOr([]);
      base["$or" := AnyOf([("studentId", In(ids)), ("ownerId", In(ids))])]
    case Student => base["$or" := AnyOf([("ownerId", Eq(Some(c.userId))), ("studentId", Eq(Some(c.userId)))])]
  }

  /** The intended query never hides an item the filter accepts, and it
      selects an item only if one of the item's own ids is in scope. */
  lemma ScopeQuerySound(c: AccessContext, item: Item)
    ensures CanAccessItem(c, item) ==> Matches(item, ScopeQuery(c, map[]))
    ensures c.role != Parent ==> (Matches(item, ScopeQuery(c, map[])) ==> CanAccessItem(c, item))
    ensures c.role == Parent && Matches(item, ScopeQuery(c, map[])) ==>
      (Get(item, "studentId").Some? && Includes(c.childrenIds, item["studentId"]))
      || (Get(item, "ownerId").Some? && Includes(c.childrenIds, item["ownerId"]))
  {
    var q := ScopeQuery(c, map[]);
    match c.role
    case Admin =>
    case Administrator =>
      assert "schoolId" in q;
      if Matches(item, q) { assert MatchesValue(item, "schoolId", q["schoolId"]); }
    case Supervisor =>
      assert "schoolId" in q;
      if Matches(item, q) { assert MatchesValue(item, "schoolId", q["schoolId"]); }
    case Teacher =>
      assert "schoolId" in q && "classId" in q;
      if Matches(item, q) {
        assert MatchesValue(item, "schoolId", q["schoolId"]);
        assert MatchesValue(item, "classId", q["classId"]);
      }
    case Parent =>
      assert "$or" in q;
      var clauses := q["$or"].clauses;
      if Matches(item, q) {
        assert MatchesValue(item, "$or", q["$or"]);
      }
      if CanAccessItem(c, item) {
        if Truthy(Get(item, "studentId")) {
          assert Holds(Get(item, clauses[0].0), clauses[0].1);
        } else {
          assert Holds(Get(item, clauses[1].0), clauses[1].1);
        }
      }
    case Student =>
      assert "$or" in q;
      var clauses := q["$or"].clauses;
      if Matches(item, q) {
        assert MatchesValue(item, "$or", q["$or"]);
      }
      if CanAccessItem(c, item) {
        if Get(item, "ownerId") == Some(c.userId) {
          assert Holds(Get(item, clauses[0].0), clauses[0].1);
        } else {
          assert Holds(Get(item, clauses[1].0), clauses[1].1);
        }
      }
  }

  // Profiles, classes and fields.

  /** `validateStudentAccess`. */
  function ValidateStudentAccess(c: AccessContext, studentId: string, classId: Option<string>,
                                 schoolId: Option<string>): (ok: bool)
    ensures c.role == Student ==> (ok <==> studentId == c.userId)
    ensures c.role == Parent ==> (ok <==> Includes(c.childrenIds, studentId))
  {
    CanAccessStudent(c, studentId, classId, schoolId)
  }

  /** `validateGradeAccess`: viewing a grade as the resource "grades". */
  function ValidateGradeAccess(c: AccessContext, studentId: string, classId: string, schoolId: string): (ok: bool)
    ensures c.role == Student ==> (ok <==> studentId == c.userId)
    ensures c.role == Teacher ==> (ok <==> c.schoolId == Some(schoolId) && Includes(c.classIds, classId))
    ensures c.role == Admin ==> ok
  {
    HasAccess(c, ResourceAccess("grades", "view", Some(studentId), Some(schoolId), Some(classId)))
  }

  /** `validateClassAccess`. */
  function ValidateClassAccess(c: AccessContext, classId: string): (ok: bool)
    ensures ok <==> c.role in {Admin, Administrator, Supervisor} || (c.role == Teacher && Includes(c.classIds, classId))
  {
    match c.role
    case Admin => true
    case Administrator => true
    case Supervisor => true
    case Teacher => Includes(c.classIds, classId)
    case _ => false
  }

  /** `getAccessibleUserIds`. */
  function AccessibleUserIds(c: AccessContext): (r: Accessible)
    ensures c.role == Parent ==> r == Only([c.userId] + c.childrenIds.GetOr([]))
    ensures c.role == Student ==> r == Only([c.userId])
    ensures r.All? <==> c.role != Parent && c.role != Student
  {
    match c.role
    case Parent => Only([c.userId] + c.childrenIds.GetOr([]))
    case Student => Only([c.userId])
    case _ => All
  }

  /** `canAccessUserProfile`: a student sees only itself, a parent itself and
      its children, staff everyone. */
  function CanAccessUserProfile(c: AccessContext, target: string): (ok: bool)
    ensures c.role == Student ==> (ok <==> target == c.userId)
    ensures c.role == Parent ==> (ok <==> target == c.userId || Includes(c.childrenIds, target))
    ensures c.role != Student && c.role != Parent ==> ok
  {
    var ids := AccessibleUserIds(c);
    ids.All? || target in ids.ids
  }

  const ParentProfileFields: set<string> := {"name", "grades", "attendance", "behavior", "contactInfo"}
  const StudentRestrictedFields: set<string> := {"internalNotes", "parentContactInfo"}
  const TeacherStudentFields: set<string> :=
    {"id", "name", "classId", "schoolId", "grades", "attendance", "behavior", "performance"}

  /** The fields a role is shown of a record of the resource. */
  function Shown(c: AccessContext, data: Item, resource: string): (r: Item)
    ensures r.Keys <= data.Keys
    ensures forall k :: k in r ==> r[k] == data[k]
    ensures c.role == Parent && resource == "student_profile" ==> r.Keys == data.Keys * ParentProfileFields
    ensures c.role == Student && resource == "own_profile" ==> r.Keys == data.Keys - StudentRestrictedFields
    ensures c.role == Teacher && resource == "students" ==> r.Keys == data.Keys * TeacherStudentFields
  {
    if c.role == Parent && resource == "student_profile" then KeepOnly(data, ParentProfileFields)
    else if c.role == Student && resource == "own_profile" then data - StudentRestrictedFields
    else if c.role == Teacher && resource == "students" then KeepOnly(data, TeacherStudentFields)
    else data
  }

  function KeepOnly(data: Item, allowed: set<string>): (r: Item)
    ensures r.Keys == data.Keys * allowed && forall k :: k in r ==> r[k] == data[k]
  {
    map k | k in data && k in allowed :: data[k]
  }

  /** The `forEach` that deletes every key not in the allowed list. */
  method DeleteOthers(data: Item, allowed: set<string>) returns (filtered: Item)
    ensures filtered == KeepOnly(data, allowed)
  {
    filtered := data;
    var keys := data.Keys;
    while keys != {}
      invariant keys <= data.Keys
      invariant filtered == map k | k in data && (k in keys || k in allowed) :: data[k]
      decreases |keys|
    {
      var k :| k in keys;
      ghost var next := map j | j in data && (j in keys - {k} || j in allowed) :: data[j];
      if k !in allowed {
        filtered := filtered - {k};
      }
      assert filtered.Keys == next.Keys;
      keys := keys - {k};
    }
  }

  /** What `filterFields` produces when it runs. */
  datatype Outcome = Thrown | Filtered(record: Option<Item>)

  /** `filterFields`, as written: it calls `getPermissionsForRole` on the
      `PrivilegeChecker` class, which defines no such member, so every call
      throws before any field is filtered. */
  function FilterFieldsAsWritten(c: AccessContext, data: Item, resource: string): (r: Outcome)
    ensures r == Thrown
  {
    Thrown
  }

  /** `filterFields` with the permission taken from the role table, as
      intended: null when the role may not view, else the shown fields. */
  method FilterFields(c: AccessContext, data: Item, resource: string) returns (r: Option<Item>)
    ensures r == if PermissionsForRole(c.role, Some(resource)).view then Some(Shown(c, data, resource)) else None
    ensures r.Some?
  {
    if !PermissionsForRole(c.role, Some(resource)).view {
      return None;
    }
    var filtered := data;
    if c.role == Parent && resource == "student_profile" {
      filtered := DeleteOthers(filtered, ParentProfileFields);
    }
    if c.role == Student && resource == "own_profile" {
      filtered := filtered - StudentRestrictedFields;
    }
    if c.role == Teacher && resource == "students" {
      filtered := DeleteOthers(filtered, TeacherStudentFields);
    }
    return Some(filtered);
  }

  /** `getStudentsInClass` with the intended `filterFields`: nothing
      without class access; otherwise the accessible students of the class, each
      shown with the fields of the "students" resource. */
  function StudentsInClass(c: AccessContext, classId: string, all: seq<Item>): (r: seq<Item>)
    ensures !ValidateClassAccess(c, classId) ==> r == []
    ensures forall i :: 0 <= i < |r| ==> Get(r[i], "classId") == Some(classId)
    ensures forall i :: 0 <= i < |r| ==> exists s :: s in all && CanAccessItem(c, s) && r[i] == Shown(c, s, "students")
    ensures ValidateClassAccess(c, classId) ==>
      forall s :: s in all && Get(s, "classId") == Some(classId) && CanAccessItem(c, s) ==> Shown(c, s, "students") in r
  {
    if !ValidateClassAccess(c, classId) then []
    else
      var inClass := Lists.Filter(all, (s: Item) => Get(s, "classId") == Some(classId) && CanAccessItem(c, s));
      var r := seq(|inClass|, i requires 0 <= i < |inClass| => Shown(c, inClass[i], "students"));
      assert forall i :: 0 <= i < |r| ==> inClass[i] in all && CanAccessItem(c, inClass[i]) && r[i] == Shown(c, inClass[i], "students");
      assert forall s :: s in inClass ==> Shown(c, s, "students") in r by {
        forall s | s in inClass ensures Shown(c, s, "students") in r {
          var i :| 0 <= i < |inClass| && inClass[i] == s;
          assert r[i] == Shown(c, s, "students");
        }
      }
      r
  }

  /** As written, any call that reaches `filterFields` throws, so a teacher
      asking for its own class with a student in it gets an error. */
  lemma StudentsInClassAsWrittenThrows(c: AccessContext, classId: string, all: seq<Item>)
    requires ValidateClassAccess(c, classId)
    requires exists s :: s in all && Get(s, "classId") == Some(classId) && CanAccessItem(c, s)
    ensures exists s :: s in all && CanAccessItem(c, s) && FilterFieldsAsWritten(c, s, "students") == Thrown
    ensures |StudentsInClass(c, classId, all)| > 0
  {
    var s :| s in all && Get(s, "classId") == Some(classId) && CanAccessItem(c, s);
    assert Shown(c, s, "students") in StudentsInClass(c, classId, all);
  }

  /** `getTeacherClassList`. */
  function TeacherClassList(c: AccessContext, classes: seq<Item>): (r: seq<Item>)
    ensures c.role != Teacher ==> r == []
    ensures forall i :: 0 <= i < |r| ==> r[i] in classes && Get(r[i], "schoolId") == c.schoolId
                                         && "id" in r[i] && Includes(c.classIds, r[i]["id"])
    ensures c.role == Teacher ==>
      forall k :: (k in classes && Get(k, "schoolId") == c.schoolId && "id" in k && Includes(c.classIds, k["id"])) ==> k in r
  {
    if c.role != Teacher then []
    else Lists.Filter(classes, (k: Item) => Get(k, "schoolId") == c.schoolId && "id" in k && Includes(c.classIds, k["id"]))
  }
}
