/** Linking a student to a parent account and editing or removing that
    link. The link request runs a fixed chain of checks, so a parent can
    only link a student whose date of birth they know. Whether JavaScript's
    `Date.parse` accepts the date is handed in. */
module ChildrenRoute {
  import opened Common

  /** `/^\d{4}-\d{2}-\d{2}$/`. */
  predicate DateShape(s: string) {
    |s| == 10 && s[4] == '-' && s[7] == '-'
    && AllDigits(s[..4]) && AllDigits(s[5..7]) && AllDigits(s[8..])
  }

  /** A stored user as the link checks read it; the date of birth is its
      `YYYY-MM-DD` form. */
  datatype User = User(role: string, dateOfBirth: Option<string>)

  /** A stored relationship; its type and primary flag are NULL when the
      body gave null. */
  datatype Relationship = Relationship(parent: string, student: string, kind: Option<string>, primary: Option<bool>)

  /** A body field with a destructuring default: missing, JSON null, or a
      value. The default only fills a missing field. */
  datatype BodyField<T> = Undefined | Null | Given(value: T)

  /** The column a body field inserts: the default when missing, NULL when
      null, the value when given. */
  function Inserted<T>(f: BodyField<T>, default: T): (c: Option<T>)
    ensures c.None? <==> f.Null?
    ensures f.Undefined? ==> c == Some(default)
    ensures f.Given? ==> c == Some(f.value)
  {
    match f
    case Undefined => Some(default)
    case Null => None
    case Given(v) => Some(v)
  }

  /** The POST /:parentId/add body; `dateParses` is `!isNaN(Date.parse(dateOfBirth))`. */
  datatype AddRequest = AddRequest(
    studentId: Option<string>, kind: BodyField<string>, primary: BodyField<bool>,
    dateOfBirth: Option<string>, dateParses: bool)

  /** A relationship between these two already exists. */
  predicate Linked(rels: map<nat, Relationship>, parent: string, student: string) {
    exists id :: id in rels && rels[id].parent == parent && rels[id].student == student
  }

  datatype Reply = MissingStudent | MissingBirthDate | BadDate | ParentNotFound | SelfLink | StudentNotFound
                 | BirthDateMismatch | NotStudent | AlreadyLinked | Created(id: nat) | NotFound | Saved | Removed

  /** The chain of checks of POST /:parentId/add, in order; `None` lets the
      link through. */
  function AddCheck(users: map<string, User>, rels: map<nat, Relationship>, callerRole: Option<string>,
                    parentId: string, b: AddRequest): (r: Option<Reply>)
    ensures r.None? ==> (Truthy(b.studentId) && parentId in users && b.studentId.value in users
      && parentId != b.studentId.value && users[b.studentId.value].role == "student"
      && !Linked(rels, parentId, b.studentId.value))
    ensures r.None? && Truthy(b.dateOfBirth) ==> (DateShape(b.dateOfBirth.value)
      && users[b.studentId.value].dateOfBirth == b.dateOfBirth)
    ensures r.None? && callerRole == Some("parent") ==> users[b.studentId.value].dateOfBirth == b.dateOfBirth
    ensures (Truthy(b.studentId) && (callerRole == Some("parent") ==> Truthy(b.dateOfBirth))
      && (Truthy(b.dateOfBirth) ==> DateShape(b.dateOfBirth.value) && b.dateParses)
      && parentId in users && parentId != b.studentId.value && b.studentId.value in users
      && (Truthy(b.dateOfBirth) ==> users[b.studentId.value].dateOfBirth == b.dateOfBirth)
      && users[b.studentId.value].role == "student" && !Linked(rels, parentId, b.studentId.value)) ==> r.None?
    ensures r == Some(MissingStudent) <==> !Truthy(b.studentId)
    ensures r == Some(MissingBirthDate) ==> callerRole == Some("parent") && !Truthy(b.dateOfBirth)
    ensures r == Some(BadDate) ==> Truthy(b.dateOfBirth) && !(DateShape(b.dateOfBirth.value) && b.dateParses)
    ensures r == Some(ParentNotFound) ==> parentId !in users
    ensures r == Some(SelfLink) ==> Truthy(b.studentId) && parentId == b.studentId.value
    ensures r == Some(StudentNotFound) ==> Truthy(b.studentId) && b.studentId.value !in users
    ensures r == Some(BirthDateMismatch) ==> (Truthy(b.studentId) && b.studentId.value in users
      && Truthy(b.dateOfBirth) && users[b.studentId.value].dateOfBirth != b.dateOfBirth)
    ensures r == Some(NotStudent) ==> (Truthy(b.studentId) && b.studentId.value in users
      && users[b.studentId.value].role != "student")
    ensures r == Some(AlreadyLinked) ==> Truthy(b.studentId) && Linked(rels, parentId, b.studentId.value)
    ensures r.Some? ==> r.value in {MissingStudent, MissingBirthDate, BadDate, ParentNotFound, SelfLink,
                                    StudentNotFound, BirthDateMismatch, NotStudent, AlreadyLinked}
  {
    if !Truthy(b.studentId) then Some(MissingStudent)
    else if callerRole == Some("parent") && !Truthy(b.dateOfBirth) then Some(MissingBirthDate)
    else if Truthy(b.dateOfBirth) && !(DateShape(b.dateOfBirth.value) && b.dateParses) then Some(BadDate)
    else if parentId !in users then Some(ParentNotFound)
    else if parentId == b.studentId.value then Some(SelfLink)
    else if b.studentId.value !in users then Some(StudentNotFound)
    else if Truthy(b.dateOfBirth) && users[b.studentId.value].dateOfBirth != b.dateOfBirth then Some(BirthDateMismatch)
    else if users[b.studentId.value].role != "student" then Some(NotStudent)
    else if Linked(rels, parentId, b.studentId.value) then Some(AlreadyLinked)
    else None
  }

  /** A parent caller without the student's stored date of birth is always
      refused, and a link to oneself never goes through. */
  lemma ParentNeedsBirthDate(users: map<string, User>, rels: map<nat, Relationship>, parentId: string, b: AddRequest)
    requires Truthy(b.studentId) && b.studentId.value in users
    requires users[b.studentId.value].dateOfBirth != b.dateOfBirth || parentId == b.studentId.value
    ensures AddCheck(users, rels, Some("parent"), parentId, b).Some?
  {
  }

  /** No relationship links a user to themselves, and each (parent,
      student) pair has at most one. */
  predicate WellFormed(rels: map<nat, Relationship>) {
    (forall id :: id in rels ==> rels[id].parent != rels[id].student)
    && (forall i, j :: i in rels && j in rels && i != j ==>
          !(rels[i].parent == rels[j].parent && rels[i].student == rels[j].student))
  }

  /** `COALESCE` on the two editable columns. */
  function Edited(r: Relationship, kind: Option<string>, primary: Option<bool>): (e: Relationship)
    ensures e.parent == r.parent && e.student == r.student
    ensures kind.Some? ==> e.kind == kind
    ensures primary.Some? ==> e.primary == primary
    ensures kind.None? ==> e.kind == r.kind
    ensures primary.None? ==> e.primary == r.primary
  {
    r.(kind := if kind.Some? then kind else r.kind, primary := if primary.Some? then primary else r.primary)
  }

  /** Editing keeps the relationships well formed. */
  lemma EditKeepsWellFormed(rels: map<nat, Relationship>, id: nat, kind: Option<string>, primary: Option<bool>)
    requires WellFormed(rels) && id in rels
    ensures WellFormed(rels[id := Edited(rels[id], kind, primary)])
  {
    var next := rels[id := Edited(rels[id], kind, primary)];
    forall i, j | i in next && j in next && i != j
      ensures !(next[i].parent == next[j].parent && next[i].student == next[j].student)
    {
      assert next[i].parent == rels[i].parent && next[i].student == rels[i].student;
      assert next[j].parent == rels[j].parent && next[j].student == rels[j].student;
    }
  }

  class Children {
    var users: map<string, User>
    var rels: map<nat, Relationship>
    var nextId: nat

    predicate Valid()
      reads this
    {
      WellFormed(rels) && forall id :: id in rels ==> id < nextId
    }

    constructor (users: map<string, User>)
      ensures Valid() && this.users == users && rels == map[]
    {
      this.users := users;
      rels := map[];
      nextId := 0;
    }

    /** POST /:parentId/add: the checks, then a new relationship of the
        given type and primary flag ('parent' and false when missing,
        NULL when null). */
    method Add(callerRole: Option<string>, parentId: string, b: AddRequest) returns (reply: Reply)
      requires Valid()
      modifies this
      ensures Valid()
      ensures AddCheck(users, old(rels), callerRole, parentId, b).Some? ==>
        reply == AddCheck(users, old(rels), callerRole, parentId, b).value && rels == old(rels)
      ensures AddCheck(users, old(rels), callerRole, parentId, b).None? ==> (reply.Created? && reply.id !in old(rels)
        && rels == old(rels)[reply.id := Relationship(parentId, b.studentId.value, Inserted(b.kind, "parent"), Inserted(b.primary, false))])
      ensures users == old(users)
    {
      var check := AddCheck(users, rels, callerRole, parentId, b);
      if check.Some? {
        return check.value;
      }
      var id := nextId;
      rels := rels[id := Relationship(parentId, b.studentId.value, Inserted(b.kind, "parent"), Inserted(b.primary, false))];
      nextId := nextId + 1;
      reply := Created(id);
    }

    /** DELETE /:parentId/:relationshipId: only a relationship of this
        parent; 404 otherwise. */
    method Remove(parentId: string, id: nat) returns (reply: Reply)
      requires Valid()
      modifies this
      ensures Valid()
      ensures reply == Removed <==> id in old(rels) && old(rels)[id].parent == parentId
      ensures reply == Removed ==> rels == old(rels) - {id}
      ensures reply != Removed ==> rels == old(rels)
      ensures users == old(users)
    {
      if !(id in rels && rels[id].parent == parentId) {
        return NotFound;
      }
      rels := rels - {id};
      reply := Removed;
    }

    /** PUT /:parentId/:relationshipId: the COALESCE update of a
        relationship of this parent; 404 otherwise. */
    method Edit(parentId: string, id: nat, kind: Option<string>, primary: Option<bool>) returns (reply: Reply)
      requires Valid()
      modifies this
      ensures Valid()
      ensures reply == Saved <==> id in old(rels) && old(rels)[id].parent == parentId
      ensures reply == Saved ==> rels == old(rels)[id := Edited(old(rels)[id], kind, primary)]
      ensures reply != Saved ==> rels == old(rels)
      ensures users == old(users)
    {
      if !(id in rels && rels[id].parent == parentId) {
        return NotFound;
      }
      EditKeepsWellFormed(rels, id, kind, primary);
      rels := rels[id := Edited(rels[id], kind, primary)];
      reply := Saved;
    }
  }
}
