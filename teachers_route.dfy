/** The staff handlers: a teacher's, administrator's or supervisor's school
    is kept inside the `qualifications` text as "SCHOOL_ID:<s>" or
    "SCHOOL_ID:<s>|<q>", decoded in SQL with LIKE tests and two regular
    expressions; the listing filters by school with a LIKE prefix; and
    registration inserts one role row chosen by the user type. */
module TeachersRoute {
  import opened Common

  const Prefix: string := "SCHOOL_ID:"

  /** SQL `s LIKE p` without escapes: `%` matches any run of characters,
      `_` any one character, and every other character itself. */
  predicate Like(s: string, p: string)
    decreases |p|, |s|
  {
    if p == [] then s == []
    else if p[0] == '%' then Like(s, p[1..]) || (s != [] && Like(s[1..], p))
    else s != [] && (p[0] == '_' || p[0] == s[0]) && Like(s[1..], p[1..])
  }

  /** `s` fits a wildcard-only pattern of the same length. */
  predicate Fits(s: string, lit: string) {
    |s| == |lit| && forall k :: 0 <= k < |lit| ==> lit[k] == '_' || s[k] == lit[k]
  }

  lemma {:induction false} LikeAnything(s: string)
    ensures Like(s, "%")
    decreases |s|
  {
    if s == [] {
      assert Like(s, "%"[1..]);
    } else {
      LikeAnything(s[1..]);
    }
  }

  /** A pattern that starts with `%`-free text: that text must fit the
      front of the string and the rest of the pattern the rest. */
  lemma {:induction false} LikeLiteralFront(s: string, lit: string, rest: string)
    requires '%' !in lit
    ensures Like(s, lit + rest) <==> |s| >= |lit| && Fits(s[..|lit|], lit) && Like(s[|lit|..], rest)
    decreases |lit|
  {
    if lit != [] {
      var p := lit + rest;
      assert p[0] == lit[0] && p[1..] == lit[1..] + rest;
      if s != [] {
        LikeLiteralFront(s[1..], lit[1..], rest);
        if |s| >= |lit| {
          assert s[1..][|lit| - 1..] == s[|lit|..];
          assert forall k :: 1 <= k < |lit| ==> s[1..][..|lit| - 1][k - 1] == s[..|lit|][k];
        }
      }
    } else {
      assert lit + rest == rest;
    }
  }

  /** `LIKE '%|%'` holds exactly when the string contains a '|'. */
  lemma {:induction false} LikeBarSomewhere(s: string)
    ensures Like(s, "%|%") <==> '|' in s
    decreases |s|
  {
    var p := "%|%";
    assert p[1..] == "|%" && "|%"[1..] == "%";
    if s != [] {
      LikeBarSomewhere(s[1..]);
      LikeAnything(s[1..]);
      assert '|' in s <==> s[0] == '|' || '|' in s[1..];
    }
  }

  /** The `qualifications` starts with text that `LIKE 'SCHOOL_ID:...'`
      accepts; `_` is a wildcard there, so "SCHOOLxID:" passes too. */
  predicate PrefixLike(q: string) {
    |q| >= |Prefix| && Fits(q[..|Prefix|], Prefix)
  }

  lemma LikePrefixTests(q: string)
    ensures Like(q, Prefix + "%") <==> PrefixLike(q)
    ensures Like(q, Prefix + "%|%") <==> PrefixLike(q) && '|' in q[|Prefix|..]
  {
    LikeLiteralFront(q, Prefix, "%");
    LikeLiteralFront(q, Prefix, "%|%");
    if |q| >= |Prefix| {
      LikeAnything(q[|Prefix|..]);
      LikeBarSomewhere(q[|Prefix|..]);
    }
  }

  /** The length of the leading run without '|' (`[^|]+`, greedy). */
  function Run(s: string): (k: nat)
    ensures k <= |s| && '|' !in s[..k]
    ensures k < |s| ==> s[k] == '|'
  {
    match IndexOf(s, '|')
    case None => |s|
    case Some(i) => i
  }

  predicate PrefixAt(q: string, i: nat) {
    i + |Prefix| <= |q| && q[i..i + |Prefix|] == Prefix
  }

  /** `substring(q from 'SCHOOL_ID:([^|]+)')`: the leftmost "SCHOOL_ID:"
      followed by at least one non-'|' character, from position `i` on;
      the capture is that whole run. */
  function SchoolCapture(q: string, i: nat): (r: Option<string>)
    ensures r.Some? ==> |r.value| > 0 && '|' !in r.value
    decreases |q| - i
  {
    if i + |Prefix| >= |q| then None
    else if PrefixAt(q, i) && q[i + |Prefix|] != '|' then
      var start := i + |Prefix|;
      Some(q[start..start + Run(q[start..])])
    else SchoolCapture(q, i + 1)
  }

  /** `substring(q from 'SCHOOL_ID:[^|]+\|(.+)')`: the leftmost
      "SCHOOL_ID:", a non-empty run without '|', a '|' and at least one
      more character; the capture is everything after that '|'. */
  function QualsCapture(q: string, i: nat): (r: Option<string>)
    ensures r.Some? ==> |r.value| > 0
    decreases |q| - i
  {
    if i + |Prefix| >= |q| then None
    else
      var start := i + |Prefix|;
      var run := Run(q[start..]);
      if PrefixAt(q, i) && run >= 1 && start + run + 1 < |q| then Some(q[start + run + 1..])
      else QualsCapture(q, i + 1)
  }

  /** The listing's decoded columns: the school and the qualifications
      proper. */
  datatype Decoded = Decoded(schoolId: Option<string>, actualQualifications: Option<string>)

  /** The two CASE expressions of the listing; a NULL column decodes to
      two NULLs. */
  function Decode(q: Option<string>): (d: Decoded)
    ensures q.None? ==> d == Decoded(None, None)
    ensures d.schoolId.Some? ==> '|' !in d.schoolId.value
  {
    match q
    case None => Decoded(None, None)
    case Some(s) =>
      var school := if Like(s, Prefix + "%") then SchoolCapture(s, 0) else None;
      var actual :=
        if Like(s, Prefix + "%|%") then QualsCapture(s, 0)
        else if Like(s, Prefix + "%") then None
        else q;
      Decoded(school, actual)
  }

  /** How registration stores the school: with the qualifications after a
      '|' when they are given, otherwise the prefixed school alone. */
  function Encode(schoolId: string, qualifications: Option<string>): (q: string)
    ensures |q| >= |Prefix| && q[..|Prefix|] == Prefix
  {
    if qualifications.Some? && |qualifications.value| > 0 then Prefix + schoolId + "|" + qualifications.value
    else Prefix + schoolId
  }

  lemma EncodedFront(schoolId: string, tail: string)
    requires |schoolId| > 0 && '|' !in schoolId
    requires tail == [] || tail[0] == '|'
    ensures var q := Prefix + schoolId + tail;
      PrefixAt(q, 0) && PrefixLike(q) && q[|Prefix|] != '|' && Run(q[|Prefix|..]) == |schoolId|
      && q[|Prefix|..][..|schoolId|] == schoolId
  {
    var q := Prefix + schoolId + tail;
    assert q[..|Prefix|] == Prefix;
    assert q[|Prefix|..] == schoolId + tail;
    if tail == [] {
      assert IndexOf(schoolId + tail, '|').None? by { assert schoolId + tail == schoolId; }
    } else {
      FirstIndexAfter(schoolId, '|', tail[1..]);
      assert schoolId + tail == schoolId + ['|'] + tail[1..];
    }
  }

  /** The decoder inverts the encoder: a school without '|' comes back, and
      so do non-empty qualifications; without them the qualifications
      column reads NULL. */
  lemma DecodeEncode(schoolId: string, qualifications: Option<string>)
    requires |schoolId| > 0 && '|' !in schoolId
    ensures Decode(Some(Encode(schoolId, qualifications))) ==
      Decoded(Some(schoolId),
        if qualifications.Some? && |qualifications.value| > 0 then qualifications else None)
  {
    var q := Encode(schoolId, qualifications);
    LikePrefixTests(q);
    if qualifications.Some? && |qualifications.value| > 0 {
      var t := qualifications.value;
      EncodedFront(schoolId, "|" + t);
      assert q == Prefix + schoolId + ("|" + t);
      assert q[|Prefix|..] == schoolId + "|" + t;
      assert '|' in q[|Prefix|..] by { assert q[|Prefix|..][|schoolId|] == '|'; }
      assert q[|Prefix| + |schoolId| + 1..] == t;
    } else {
      EncodedFront(schoolId, "");
      assert q == Prefix + schoolId + "";
      assert q[|Prefix|..] == schoolId;
    }
  }

  /** A qualifications text the prefix test rejects is listed as it is,
      with no school. */
  lemma UnprefixedIsRaw(q: string)
    requires !PrefixLike(q)
    ensures Decode(Some(q)) == Decoded(None, Some(q))
  {
    LikePrefixTests(q);
  }

  /** The as-written school filter `qualifications LIKE 'SCHOOL_ID:<id>%'`. */
  predicate SchoolFilterAsWritten(q: string, schoolId: string) {
    Like(q, Prefix + schoolId + "%")
  }

  /** Filtering by a school id also returns the staff of every school whose
      id merely starts with it: school "1" lists a teacher of school "12". */
  lemma {:induction false} PrefixFilterMatchesLongerIds(schoolId: string, more: string, qualifications: Option<string>)
    requires |schoolId| > 0 && '%' !in schoolId && '|' !in schoolId + more && |more| > 0
    ensures SchoolFilterAsWritten(Encode(schoolId + more, qualifications), schoolId)
    ensures Decode(Some(Encode(schoolId + more, qualifications))).schoolId != Some(schoolId)
  {
    var q := Encode(schoolId + more, qualifications);
    var lit := Prefix + schoolId;
    assert '%' !in lit by { assert forall k :: 0 <= k < |lit| ==> lit[k] in Prefix || lit[k] in schoolId; }
    LikeLiteralFront(q, lit, "%");
    assert q[..|lit|] == lit;
    LikeAnything(q[|lit|..]);
    DecodeEncode(schoolId + more, qualifications);
  }

  /** The filter the listing evidently means: the decoded school is the
      requested one. */
  predicate SchoolFilter(q: Option<string>, schoolId: string) {
    Decode(q).schoolId == Some(schoolId)
  }

  /** The intended filter selects an encoded row exactly when its school is
      the requested one. */
  lemma SchoolFilterExact(stored: string, qualifications: Option<string>, schoolId: string)
    requires |stored| > 0 && '|' !in stored
    ensures SchoolFilter(Some(Encode(stored, qualifications)), schoolId) <==> stored == schoolId
  {
    DecodeEncode(stored, qualifications);
  }

  /** PUT /:id: `qualifications && school_id ? prefixed-with-both :
      school_id ? prefixed-school : qualifications`; NULL keeps the stored
      value (COALESCE). */
  function UpdatedQualifications(qualifications: Option<string>, schoolId: Option<string>): (r: Option<string>)
    ensures schoolId.Some? && |schoolId.value| > 0 ==> r == Some(Encode(schoolId.value, qualifications))
    ensures schoolId.None? || |schoolId.value| == 0 ==> r == qualifications
  {
    if qualifications.Some? && |qualifications.value| > 0 && schoolId.Some? && |schoolId.value| > 0 then
      Some(Prefix + schoolId.value + "|" + qualifications.value)
    else if schoolId.Some? && |schoolId.value| > 0 then Some(Prefix + schoolId.value)
    else qualifications
  }

  function Coalesce(update: Option<string>, stored: Option<string>): Option<string> {
    if update.Some? then update else stored
  }

  /** An update that gives qualifications but no school stores them raw, so
      the row no longer decodes to any school; one that gives a school but
      no qualifications drops the stored qualifications. */
  lemma UpdateLosesTheOtherHalf(stored: Option<string>, qualifications: string, schoolId: string)
    requires !PrefixLike(qualifications) && |schoolId| > 0 && '|' !in schoolId
    ensures Decode(Coalesce(UpdatedQualifications(Some(qualifications), None), stored)).schoolId.None?
    ensures Decode(Coalesce(UpdatedQualifications(None, Some(schoolId)), stored)) == Decoded(Some(schoolId), None)
  {
    UnprefixedIsRaw(qualifications);
    DecodeEncode(schoolId, None);
  }

  datatype UserType = Teacher | Admin | Administrator | Supervisor

  function ParseUserType(s: string): (t: Option<UserType>)
    ensures t.Some? <==> s in {"teacher", "admin", "administrator", "supervisor"}
  {
    if s == "teacher" then Some(Teacher)
    else if s == "admin" then Some(Admin)
    else if s == "administrator" then Some(Administrator)
    else if s == "supervisor" then Some(Supervisor)
    else None
  }

  /** The role table a user type is inserted into and listed from. */
  function TableOf(t: UserType): string {
    match t
    case Teacher => "teachers"
    case Admin => "admins"
    case Administrator => "administrators"
    case Supervisor => "supervisors"
  }

  datatype Registration = UnknownSchool | InvalidUserType | Inserted(table: string, qualifications: Option<string>)

  /** POST /register: the school is checked first (400), then exactly one
      role row is inserted; only the admin row has no school prefix. An
      unknown type aborts the transaction. */
  function Register(userType: string, schoolId: string, schoolExists: bool, qualifications: Option<string>): (r: Registration)
    ensures r == UnknownSchool <==> !schoolExists
    ensures r == InvalidUserType <==> schoolExists && ParseUserType(userType).None?
    ensures r.Inserted? ==> r.table == TableOf(ParseUserType(userType).value)
    ensures r.Inserted? && userType != "admin" ==> r.qualifications == Some(Encode(schoolId, qualifications))
    ensures r.Inserted? && userType == "admin" ==>
      r.qualifications == (if qualifications.Some? && |qualifications.value| > 0 then qualifications else None)
  {
    if !schoolExists then UnknownSchool
    else match ParseUserType(userType)
      case None => InvalidUserType
      case Some(Admin) =>
        Inserted("admins", if qualifications.Some? && |qualifications.value| > 0 then qualifications else None)
      case Some(t) => Inserted(TableOf(t), Some(Encode(schoolId, qualifications)))
  }

  /** Registered staff other than admins list under their school again. */
  lemma RegisteredStaffListUnderSchool(userType: string, schoolId: string, qualifications: Option<string>)
    requires |schoolId| > 0 && '|' !in schoolId
    requires Register(userType, schoolId, true, qualifications).Inserted? && userType != "admin"
    ensures SchoolFilter(Register(userType, schoolId, true, qualifications).qualifications, schoolId)
  {
    DecodeEncode(schoolId, qualifications);
  }

  /** A listed staff row: its role row's qualifications and its account's
      active flag. */
  datatype StaffRow = StaffRow(id: string, qualifications: Option<string>, isActive: bool)

  datatype Listing = InvalidType | Listed(key: string, rows: seq<StaffRow>)

  /** The rows the listing's WHERE keeps: the school filter when a school
      is given, and `is_active = (is_active === 'true')` when the flag is
      given at all. */
  predicate Kept(r: StaffRow, schoolId: Option<string>, isActive: Option<string>) {
    (schoolId.None? || |schoolId.value| == 0 || SchoolFilter(r.qualifications, schoolId.value))
    && (isActive.None? || r.isActive == (isActive.value == "true"))
  }

  function KeepRows(rows: seq<StaffRow>, schoolId: Option<string>, isActive: Option<string>): (kept: seq<StaffRow>)
    ensures forall r :: r in kept <==> r in rows && Kept(r, schoolId, isActive)
  {
    if rows == [] then []
    else (if Kept(rows[0], schoolId, isActive) then [rows[0]] else []) + KeepRows(rows[1..], schoolId, isActive)
  }

  /** The user type GET / lists: `user_type = 'teacher'` fills only a
      missing parameter. */
  function ListedType(userType: Option<string>): (t: string)
    ensures userType.None? ==> t == "teacher"
    ensures userType.Some? ==> t == userType.value
  {
    userType.GetOr("teacher")
  }

  /** GET /: 400 for an unknown user type (teachers when none is given);
      otherwise exactly the rows of that type's table that pass the
      filters, under the key "teachers" or "<type>s". */
  function ListUsers(userType: Option<string>, tables: map<string, seq<StaffRow>>, schoolId: Option<string>, isActive: Option<string>)
    : (l: Listing)
    ensures l == InvalidType <==> ParseUserType(ListedType(userType)).None?
    ensures userType.None? ==> l.Listed? && l.key == "teachers"
    ensures l.Listed? ==> l.key == (if ListedType(userType) == "teacher" then "teachers" else ListedType(userType) + "s")
    ensures l.Listed? ==> forall r :: r in l.rows <==>
      (TableOf(ParseUserType(ListedType(userType)).value) in tables
       && r in tables[TableOf(ParseUserType(ListedType(userType)).value)] && Kept(r, schoolId, isActive))
  {
    var ut := ListedType(userType);
    match ParseUserType(ut)
    case None => InvalidType
    case Some(t) =>
      var rows := if TableOf(t) in tables then tables[TableOf(t)] else [];
      Listed(if ut == "teacher" then "teachers" else ut + "s", KeepRows(rows, schoolId, isActive))
  }
}
