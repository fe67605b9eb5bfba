/** Parent accounts: registration (an inactive user, a parents row, an
    optional student row of their own and a relationship to each child id
    given), linking and unlinking a child, and the activation switches of
    the management screen. The tables are modelled as maps; the uniqueness
    violations that make the registration roll back are stated as a
    predicate over them. */
module ParentsRoute {
  import opened Common
  import opened FormRules
  import StudentsRoute

  /** `childIds` as the request carries it: absent, an array, a string
      (read as comma-separated ids) or any other JSON value. */
  datatype ChildIds = Absent | Listed(items: seq<string>) | Joined(text: string) | OtherValue

  /** The ids before the length filter: the array as it is, or the pieces
      of the string, each trimmed; nothing otherwise. */
  function ChildIdList(c: ChildIds): (ids: seq<string>)
    ensures c.Listed? ==> ids == c.items
    ensures c.Joined? ==> (|ids| == |Split(c.text, ',')|
      && forall i :: 0 <= i < |ids| ==> ids[i] == Trim(Split(c.text, ',')[i]))
    ensures c.Absent? || c.OtherValue? ==> ids == []
  {
    match c
    case Absent => []
    case Listed(items) => items
    case Joined(text) =>
      var parts := Split(text, ',');
      seq(|parts|, i requires 0 <= i < |parts| => Trim(parts[i]))
    case OtherValue => []
  }

  /** Each id trimmed (`childId.toString().trim()`). */
  function TrimAll(ids: seq<string>): (out: seq<string>)
    ensures |out| == |ids| && forall i :: 0 <= i < |ids| ==> out[i] == Trim(ids[i])
  {
    seq(|ids|, i requires 0 <= i < |ids| => Trim(ids[i]))
  }

  /** The ids of exactly ten characters, in order. */
  function KeepTen(ids: seq<string>): (kept: seq<string>)
    ensures |kept| <= |ids|
    decreases |ids|
  {
    if ids == [] then []
    else
      var last := ids[|ids| - 1];
      KeepTen(ids[..|ids| - 1]) + (if |last| == 10 then [last] else [])
  }

  /** An id is kept exactly when it is given and has ten characters. */
  lemma {:induction false} KeepTenMembers(ids: seq<string>, x: string)
    ensures x in KeepTen(ids) <==> x in ids && |x| == 10
    decreases |ids|
  {
    if ids != [] {
      var init := ids[..|ids| - 1];
      KeepTenMembers(init, x);
      assert ids == init + [ids[|ids| - 1]];
    }
  }

  /** A list of ten-character ids is kept whole. */
  lemma {:induction false} KeepTenOfTen(ids: seq<string>)
    requires forall i :: 0 <= i < |ids| ==> |ids[i]| == 10
    ensures KeepTen(ids) == ids
    decreases |ids|
  {
    if ids != [] {
      KeepTenOfTen(ids[..|ids| - 1]);
      assert ids == ids[..|ids| - 1] + [ids[|ids| - 1]];
    }
  }

  /** The ids the registration links: the trimmed ids whose trimmed length
      is exactly ten (a non-empty id, so `childId &&` adds nothing). */
  function LinkedIds(c: ChildIds): seq<string> {
    KeepTen(TrimAll(ChildIdList(c)))
  }

  /** A string is linked exactly when some given id trims to it and it has
      ten characters. */
  lemma LinkedIdsMembers(c: ChildIds, x: string)
    ensures x in LinkedIds(c) <==> |x| == 10 && exists i :: 0 <= i < |ChildIdList(c)| && Trim(ChildIdList(c)[i]) == x
  {
    KeepTenMembers(TrimAll(ChildIdList(c)), x);
  }

  lemma TrimDigits(s: string)
    requires AllDigits(s)
    ensures Trim(s) == s
  {
    assert TrimStart(s) == s;
  }

  /** Ten-digit ids pass trimming and the filter unchanged, so a list of
      them is linked whole and in order. */
  lemma TenDigitsLinkedWhole(ids: seq<string>)
    requires forall i :: 0 <= i < |ids| ==> IsTenDigits(ids[i])
    ensures KeepTen(TrimAll(ids)) == ids
  {
    forall i | 0 <= i < |ids|
      ensures TrimAll(ids)[i] == ids[i]
    {
      TrimDigits(ids[i]);
    }
    assert TrimAll(ids) == ids;
    KeepTenOfTen(ids);
  }

  /** The registration body; `emailAccepted` is the verdict of validator.js's
      `isEmail`, which is not part of this model. */
  datatype Registration = Registration(
    id: string, firstName: string, secondName: string, thirdName: string, lastName: string,
    neighborhood: string, email: string, emailAccepted: bool, phone: string, password: string,
    childIds: ChildIds, registerSelf: bool, selfSchoolLevel: Option<string>)

  /** The rules that do not concern ids or the school level. */
  predicate OtherRules(r: Registration) {
    |r.firstName| > 0 && |r.secondName| > 0 && |r.thirdName| > 0 && |r.lastName| > 0
    && |r.neighborhood| > 0 && r.emailAccepted && IsMobile(r.phone) && |r.password| >= 6
  }

  /** A parent who registers as a student names a school level. As written
      the rule sits behind `.if(body('registerSelf').equals(true))`, and
      express-validator hands `equals` the value's string form "true",
      which is never `===` the boolean `true`: the rule never applies. */
  predicate LevelRule(r: Registration) {
    r.registerSelf ==> r.selfSchoolLevel.Some? && |r.selfSchoolLevel.value| > 0
  }

  /** `childIds` is optional and, when given, an array whose every element
      satisfies the id rule. */
  predicate ChildIdsAccepted(c: ChildIds, tenDigitsOnly: bool) {
    match c
    case Absent => true
    case Listed(items) => forall i :: 0 <= i < |items| ==> IdRule(items[i], tenDigitsOnly)
    case Joined(_) => false
    case OtherValue => false
  }

  /** `isLength({min: 10, max: 10}).isNumeric()`, or the ten digits the
      messages describe. */
  predicate IdRule(s: string, tenDigitsOnly: bool) {
    if tenDigitsOnly then IsTenDigits(s) else |s| == 10 && StudentsRoute.IsNumeric(s)
  }

  /** The validation chain as written, where the level rule never applies. */
  predicate RegistrationValidAsWritten(r: Registration) {
    OtherRules(r) && IdRule(r.id, false) && ChildIdsAccepted(r.childIds, false)
  }

  /** The validation chain with ids of ten digits, as the messages say,
      and the level rule applied. */
  predicate RegistrationValid(r: Registration) {
    OtherRules(r) && LevelRule(r) && IdRule(r.id, true) && ChildIdsAccepted(r.childIds, true)
  }

  lemma RegistrationValidPassesAsWritten(r: Registration)
    requires RegistrationValid(r)
    ensures RegistrationValidAsWritten(r)
  {
    StudentsRoute.TenDigitsAreNumeric(r.id);
    if r.childIds.Listed? {
      forall i | 0 <= i < |r.childIds.items|
        ensures IdRule(r.childIds.items[i], false)
      {
        StudentsRoute.TenDigitsAreNumeric(r.childIds.items[i]);
      }
    }
  }

  /** A registration with the id "+123456789" passes the rules as written. */
  const SignedIdSample := Registration("+123456789", "a", "b", "c", "d", "n", "p@q.r", true, "0512345678",
    "secret1", Absent, false, None)

  lemma SignedIdPassesAsWritten()
    ensures RegistrationValidAsWritten(SignedIdSample) && !RegistrationValid(SignedIdSample)
  {
    var r := SignedIdSample;
    StudentsRoute.SignedIdPasses();
    assert AllDigits(r.phone);
    assert OtherRules(r);
    assert IdRule(r.id, false) && !IdRule(r.id, true);
  }

  /** A parent asking to register as a student without a level. */
  const SelfWithoutLevelSample := Registration("1234567890", "a", "b", "c", "d", "n", "p@q.r", true, "0512345678",
    "secret1", Absent, true, None)

  /** As written, that registration passes and the parent is registered
      without becoming a student. */
  lemma SelfWithoutLevelPassesAsWritten()
    ensures RegistrationValidAsWritten(SelfWithoutLevelSample) && !RegistrationValid(SelfWithoutLevelSample)
    ensures SelfWithoutLevelSample.registerSelf && !SelfStudent(SelfWithoutLevelSample)
  {
    var r := SelfWithoutLevelSample;
    assert AllDigits(r.phone) && AllDigits(r.id);
    StudentsRoute.TenDigitsAreNumeric(r.id);
    assert OtherRules(r) && IdRule(r.id, false);
  }

  /** With the level rule applied, a valid registration that asks for it
      always makes the parent a student too. */
  lemma ValidSelfRegistrationIsStudent(r: Registration)
    requires RegistrationValid(r)
    ensures r.registerSelf <==> SelfStudent(r)
  {
  }

  /** The string form of `childIds` never reaches the handler: `isArray`
      refuses it. */
  lemma JoinedIsRefused(r: Registration)
    requires r.childIds.Joined?
    ensures !RegistrationValidAsWritten(r) && !RegistrationValid(r)
  {
  }

  /** After validation every listed child id is linked, in order. */
  lemma ValidRegistrationLinksAll(r: Registration)
    requires RegistrationValid(r)
    ensures LinkedIds(r.childIds) == (if r.childIds.Listed? then r.childIds.items else [])
  {
    if r.childIds.Listed? {
      TenDigitsLinkedWhole(r.childIds.items);
    }
  }

  /** The parent also becomes a student: `registerSelf && selfSchoolLevel`. */
  predicate SelfStudent(r: Registration) {
    r.registerSelf && r.selfSchoolLevel.Some? && |r.selfSchoolLevel.value| > 0
  }

  datatype UserRow = UserRow(email: string, active: bool)

  /** A parent_student_relationships row, keyed by (parent, student). */
  datatype Relation = Relation(kind: string, primary: bool)

  /** The relationship rows after upserting (parent, c) for each c:
      `relationship_type = 'parent'`, a new row being primary. */
  function LinkedRelations(rel: map<(string, string), Relation>, p: string, ids: seq<string>): (out: map<(string, string), Relation>)
    ensures out.Keys == rel.Keys + set c | c in ids :: (p, c)
    ensures forall c :: c in ids ==> (out[(p, c)].kind == "parent"
      && out[(p, c)].primary == ((p, c) in rel ==> rel[(p, c)].primary))
    ensures forall k :: k in rel && !(k.0 == p && k.1 in ids) ==> out[k] == rel[k]
  {
    map k | k in rel.Keys + (set c | c in ids :: (p, c)) ::
      if k.0 == p && k.1 in ids then (if k in rel then rel[k].(kind := "parent") else Relation("parent", true))
      else rel[k]
  }

  /** The students after `SET parent_id = p WHERE id = c AND parent_id IS
      NULL` for each c: a student who already has a parent keeps it. */
  function AdoptedStudents(st: map<string, Option<string>>, p: string, ids: seq<string>): (out: map<string, Option<string>>)
    ensures out.Keys == st.Keys
    ensures forall s :: s in st && st[s].Some? ==> out[s] == st[s]
    ensures forall s :: s in st && st[s].None? ==> out[s] == (if s in ids then Some(p) else None)
  {
    map s | s in st :: if s in ids && st[s].None? then Some(p) else st[s]
  }

  lemma LinkedRelationsSnoc(rel: map<(string, string), Relation>, p: string, ids: seq<string>, c: string)
    ensures var cur := LinkedRelations(rel, p, ids);
      LinkedRelations(rel, p, ids + [c])
      == cur[(p, c) := if (p, c) in cur then cur[(p, c)].(kind := "parent") else Relation("parent", true)]
  {
    var cur := LinkedRelations(rel, p, ids);
    var next := LinkedRelations(rel, p, ids + [c]);
    var step := cur[(p, c) := if (p, c) in cur then cur[(p, c)].(kind := "parent") else Relation("parent", true)];
    assert next.Keys == step.Keys;
    forall k | k in next.Keys
      ensures next[k] == step[k]
    {
      if k.0 == p && k.1 in ids && k.1 != c {
        assert k.1 in ids + [c];
      }
    }
  }

  lemma AdoptedStudentsSnoc(st: map<string, Option<string>>, p: string, ids: seq<string>, c: string)
    ensures var cur := AdoptedStudents(st, p, ids);
      AdoptedStudents(st, p, ids + [c])
      == (if c in cur && cur[c].None? then cur[c := Some(p)] else cur)
  {
    var cur := AdoptedStudents(st, p, ids);
    var next := AdoptedStudents(st, p, ids + [c]);
    var step := if c in cur && cur[c].None? then cur[c := Some(p)] else cur;
    forall s | s in next.Keys
      ensures next[s] == step[s]
    {
      if s in ids {
        assert s in ids + [c];
      }
    }
  }

  /** One turn of the linking loop. */
  lemma LinkStep(rel0: map<(string, string), Relation>, st0: map<string, Option<string>>, p: string, ids: seq<string>, i: nat,
                 rel: map<(string, string), Relation>, st: map<string, Option<string>>)
    requires i < |ids| && rel == LinkedRelations(rel0, p, ids[..i]) && st == AdoptedStudents(st0, p, ids[..i])
    ensures LinkedRelations(rel0, p, ids[..i + 1])
      == rel[(p, ids[i]) := if (p, ids[i]) in rel then rel[(p, ids[i])].(kind := "parent") else Relation("parent", true)]
    ensures AdoptedStudents(st0, p, ids[..i + 1])
      == if ids[i] in st && st[ids[i]].None? then st[ids[i] := Some(p)] else st
  {
    assert ids[..i + 1] == ids[..i] + [ids[i]];
    LinkedRelationsSnoc(rel0, p, ids[..i], ids[i]);
    AdoptedStudentsSnoc(st0, p, ids[..i], ids[i]);
  }

  /** Every parent a student row names is backed by a relationship row or
      is the student. */
  predicate Backed(rel: map<(string, string), Relation>, st: map<string, Option<string>>) {
    forall s :: s in st && st[s].Some? ==> (st[s].value, s) in rel || st[s].value == s
  }

  /** Linking keeps every student's parent backed. */
  lemma BackedAfterLinking(rel: map<(string, string), Relation>, st: map<string, Option<string>>, p: string, ids: seq<string>)
    requires Backed(rel, st)
    ensures Backed(LinkedRelations(rel, p, ids), AdoptedStudents(st, p, ids))
  {
  }

  /** The unique columns a registration would violate, rolling back the
      whole transaction: the user id or e-mail, the parents id, or the
      parent's own students row. */
  predicate Conflict(users: map<string, UserRow>, parents: set<string>, students: map<string, Option<string>>, r: Registration) {
    r.id in users || r.id in parents || (exists u :: u in users && users[u].email == r.email)
    || (SelfStudent(r) && r.id in students)
  }

  /** The students after the registration's own students row. */
  function WithSelf(st: map<string, Option<string>>, r: Registration): map<string, Option<string>> {
    if SelfStudent(r) then st[r.id := Some(r.id)] else st
  }

  /** The users after the activation switch for these ids: only parents
      change. */
  function SetActive(users: map<string, UserRow>, parents: set<string>, ids: seq<string>, active: bool): (out: map<string, UserRow>)
    ensures out.Keys == users.Keys
    ensures forall u :: u in users ==> out[u] == (if u in ids && u in parents then users[u].(active := active) else users[u])
  {
    map u | u in users :: if u in ids && u in parents then users[u].(active := active) else users[u]
  }

  /** Switching one parent is the bulk switch of a one-element list. */
  lemma ToggleIsBulkOfOne(users: map<string, UserRow>, parents: set<string>, p: string, active: bool)
    requires p in users && p in parents
    ensures SetActive(users, parents, [p], active) == users[p := users[p].(active := active)]
  {
    assert SetActive(users, parents, [p], active).Keys == users[p := users[p].(active := active)].Keys;
  }

  datatype Reply = Invalid | Duplicate | Registered | ParentNotFound | StudentNotFound | ChildLinked
                 | RelationNotFound | ChildUnlinked | NotFound | StatusSet

  class ParentStore {
    var users: map<string, UserRow>
    var parents: set<string>
    /** students.parent_id by student id. */
    var students: map<string, Option<string>>
    var relations: map<(string, string), Relation>

    /** Each parent a student row names is backed by a relationship row, or
        is the student, registered as their own parent. */
    predicate Valid()
      reads this
    {
      Backed(relations, students)
    }

    constructor (users: map<string, UserRow>, parents: set<string>)
      ensures this.users == users && this.parents == parents && students == map[] && relations == map[]
      ensures Valid()
    {
      this.users := users;
      this.parents := parents;
      students := map[];
      relations := map[];
    }

    /** POST /api/parents: 400 on a broken rule or a uniqueness violation
        (nothing is kept); otherwise an inactive user, the parents row, the
        parent's own student row when asked for, and a link to each child id
        of ten characters. */
    method Register(r: Registration) returns (reply: Reply)
      requires Valid()
      modifies this
      ensures Valid()
      ensures reply == Registered <==> RegistrationValid(r) && !Conflict(old(users), old(parents), old(students), r)
      ensures reply == Registered ==>
        users == old(users)[r.id := UserRow(r.email, false)] && parents == old(parents) + {r.id}
        && relations == LinkedRelations(old(relations), r.id, LinkedIds(r.childIds))
        && students == AdoptedStudents(WithSelf(old(students), r), r.id, LinkedIds(r.childIds))
      ensures reply != Registered ==> (users == old(users) && parents == old(parents)
        && students == old(students) && relations == old(relations))
    {
      if !RegistrationValid(r) {
        return Invalid;
      }
      if Conflict(users, parents, students, r) {
        return Duplicate;
      }
      users := users[r.id := UserRow(r.email, false)];
      parents := parents + {r.id};
      if SelfStudent(r) {
        students := students[r.id := Some(r.id)];
      }
      LinkAll(r.id, LinkedIds(r.childIds));
      reply := Registered;
    }

    /** The registration's loop over the child ids: each relationship is
        upserted and each student without a parent takes this one. */
    method LinkAll(p: string, ids: seq<string>)
      requires Valid()
      modifies this
      ensures Valid()
      ensures relations == LinkedRelations(old(relations), p, ids)
      ensures students == AdoptedStudents(old(students), p, ids)
      ensures users == old(users) && parents == old(parents)
    {
      ghost var rel0, st0 := relations, students;
      var i := 0;
      while i < |ids|
        invariant 0 <= i <= |ids|
        invariant relations == LinkedRelations(rel0, p, ids[..i])
        invariant students == AdoptedStudents(st0, p, ids[..i])
        invariant users == old(users) && parents == old(parents)
      {
        var c := ids[i];
        LinkStep(rel0, st0, p, ids, i, relations, students);
        var key := (p, c);
        relations := relations[key := if key in relations then relations[key].(kind := "parent") else Relation("parent", true)];
        if c in students && students[c].None? {
          students := students[c := Some(p)];
        }
        i := i + 1;
      }
      assert ids[..i] == ids;
      BackedAfterLinking(rel0, st0, p, ids);
    }

    /** PUT /api/parents/:id/link-child: 400 on a broken rule, 404 for an
        unknown parent or student; otherwise the relationship is upserted as
        primary with its type, and the student takes this parent unless they
        have one. */
    method LinkChild(p: string, c: string, kind: Option<string>) returns (reply: Reply)
      requires Valid()
      modifies this
      ensures Valid()
      ensures !IdRule(c, true) || (kind.Some? && kind.value !in {"parent", "guardian", "relative"}) ==> reply == Invalid
      ensures reply == ChildLinked <==> (IdRule(c, true) && (kind.None? || kind.value in {"parent", "guardian", "relative"})
        && p in old(parents) && c in old(students))
      ensures reply == ChildLinked ==>
        relations == old(relations)[(p, c) := Relation(kind.GetOr("parent"), true)]
        && students == (if old(students)[c].None? then old(students)[c := Some(p)] else old(students))
      ensures reply != ChildLinked ==> relations == old(relations) && students == old(students)
      ensures users == old(users) && parents == old(parents)
    {
      if !IdRule(c, true) || (kind.Some? && kind.value !in {"parent", "guardian", "relative"}) {
        return Invalid;
      }
      if p !in parents {
        return ParentNotFound;
      }
      if c !in students {
        return StudentNotFound;
      }
      relations := relations[(p, c) := Relation(kind.GetOr("parent"), true)];
      if students[c].None? {
        students := students[c := Some(p)];
      }
      reply := ChildLinked;
    }

    /** DELETE /api/parents/:id/unlink-child/:childId: 404 without the
        relationship; otherwise it is removed, and the student's parent is
        cleared only if it was this parent. */
    method UnlinkChild(p: string, c: string) returns (reply: Reply)
      requires Valid()
      modifies this
      ensures Valid()
      ensures reply == ChildUnlinked <==> (p, c) in old(relations)
      ensures reply == ChildUnlinked ==> (relations == old(relations) - {(p, c)}
        && students == (if c in old(students) && old(students)[c] == Some(p) then old(students)[c := None] else old(students)))
      ensures reply != ChildUnlinked ==> relations == old(relations) && students == old(students)
      ensures users == old(users) && parents == old(parents)
    {
      if (p, c) !in relations {
        return RelationNotFound;
      }
      relations := relations - {(p, c)};
      if c in students && students[c] == Some(p) {
        students := students[c := None];
      }
      reply := ChildUnlinked;
    }

    /** PUT /management/:parentId/toggle-status: 404 unless the id is a
        parent's user. */
    method ToggleStatus(p: string, active: bool) returns (reply: Reply)
      modifies this
      ensures reply == StatusSet <==> p in old(users) && p in old(parents)
      ensures reply == StatusSet ==> users == old(users)[p := old(users)[p].(active := active)]
      ensures reply != StatusSet ==> users == old(users)
      ensures parents == old(parents) && students == old(students) && relations == old(relations)
    {
      if !(p in users && p in parents) {
        return NotFound;
      }
      users := users[p := users[p].(active := active)];
      reply := StatusSet;
    }

    /** PUT /management/bulk-status: 400 for an empty list; otherwise every
        listed parent's user is switched. */
    method BulkStatus(ids: seq<string>, active: bool) returns (reply: Reply)
      modifies this
      ensures reply == StatusSet <==> ids != []
      ensures reply == StatusSet ==> users == SetActive(old(users), parents, ids, active)
      ensures reply != StatusSet ==> users == old(users)
      ensures parents == old(parents) && students == old(students) && relations == old(relations)
    {
      if ids == [] {
        return Invalid;
      }
      users := SetActive(users, parents, ids, active);
      reply := StatusSet;
    }
  }
}
