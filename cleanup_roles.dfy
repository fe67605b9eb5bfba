/** The maintenance script that removes duplicate role rows: a user found in
    two role tables or more is given one intended role by a fixed priority
    and removed from every other role table, each user in a transaction of
    its own. Which users' deletions fail is handed in. */
module CleanupRoles {
  import opened Common

  /** The six role tables. */
  datatype Table = Students | Parents | Teachers | Administrators | Admins | Supervisors

  datatype Role = Admin | Administrator | Supervisor | Teacher | ParentStudent | Parent | Student
  {
    /** The priority: 0 is the highest. */
    function Rank(): nat {
      match this
      case Admin => 0
      case Administrator => 1
      case Supervisor => 2
      case Teacher => 3
      case ParentStudent => 4
      case Parent => 5
      case Student => 6
    }
  }

  /** The role a single table stands for. */
  function RoleOf(t: Table): Role {
    match t
    case Students => Student
    case Parents => Parent
    case Teachers => Teacher
    case Administrators => Administrator
    case Admins => Admin
    case Supervisors => Supervisor
  }

  /** In two role tables or more: the count the query sums is above one. */
  predicate Duplicated(m: set<Table>) {
    exists a, b :: a in m && b in m && a != b
  }

  /** The intended role by priority; none for a user in no role table. */
  function IntendedRole(m: set<Table>): (r: Option<Role>)
    ensures r.None? <==> m == {}
  {
    if Admins in m then Some(Admin)
    else if Administrators in m then Some(Administrator)
    else if Supervisors in m then Some(Supervisor)
    else if Teachers in m then Some(Teacher)
    else if Parents in m && Students in m then Some(ParentStudent)
    else if Parents in m then Some(Parent)
    else if Students in m then Some(Student)
    else
      NoTableLeft(m);
      None
  }

  /** A set of tables holding none of the six is empty. */
  lemma NoTableLeft(m: set<Table>)
    requires Admins !in m && Administrators !in m && Supervisors !in m && Teachers !in m
    requires Parents !in m && Students !in m
    ensures m == {}
  {
    forall t | t in m
      ensures false
    {
      match t
      case Students =>
      case Parents =>
      case Teachers =>
      case Administrators =>
      case Admins =>
      case Supervisors =>
    }
  }

  /** The tables the intended role evidently should keep: its own, and both
      for a parent who is also a student. */
  function Kept(r: Role): set<Table> {
    match r
    case Admin => {Admins}
    case Administrator => {Administrators}
    case Supervisor => {Supervisors}
    case Teacher => {Teachers}
    case ParentStudent => {Parents, Students}
    case Parent => {Parents}
    case Student => {Students}
  }

  /** The corrected clean-up of one user: the intended role's tables stay. */
  function Cleaned(m: set<Table>): set<Table> {
    if Duplicated(m) then m * Kept(IntendedRole(m).value) else m
  }

  /** The tables the deletions AS WRITTEN leave: each table is emptied of
      the user unless the intended role is that table's own role; only the
      parents table also spares 'parent_student', so such a user loses
      the students row. */
  function KeptAsWritten(r: Role): (k: set<Table>)
    ensures Students in k <==> r == Student
    ensures Parents in k <==> r == Parent || r == ParentStudent
    ensures r != ParentStudent ==> k == Kept(r)
  {
    match r
    case Admin => {Admins}
    case Administrator => {Administrators}
    case Supervisor => {Supervisors}
    case Teacher => {Teachers}
    case ParentStudent => {Parents}
    case Parent => {Parents}
    case Student => {Students}
  }

  /** A user's role tables after their transaction commits, as written. */
  function CleanedAsWritten(m: set<Table>): set<Table> {
    if Duplicated(m) then m * KeptAsWritten(IntendedRole(m).value) else m
  }

  /** As written, a duplicated user ends in one table only, the one of a
      role no lower than the intended one, and a second run changes
      nothing. */
  lemma CleanedAsWrittenSingle(m: set<Table>)
    requires Duplicated(m)
    ensures exists t :: CleanedAsWritten(m) == {t}
    ensures !Duplicated(CleanedAsWritten(m))
    ensures CleanedAsWritten(CleanedAsWritten(m)) == CleanedAsWritten(m)
  {
    var r := IntendedRole(m).value;
    var t := match r
      case Admin => Admins
      case Administrator => Administrators
      case Supervisor => Supervisors
      case Teacher => Teachers
      case ParentStudent => Parents
      case Parent => Parents
      case Student => Students;
    assert t in m;
    assert CleanedAsWritten(m) == {t};
  }

  /** A user in both the parents and the students table (and no staff
      table) is intended as 'parent_student', yet loses the students row:
      afterwards the intended role reads 'parent'. */
  lemma ParentStudentLosesStudentRow()
    ensures IntendedRole({Parents, Students}) == Some(ParentStudent)
    ensures CleanedAsWritten({Parents, Students}) == {Parents}
    ensures IntendedRole(CleanedAsWritten({Parents, Students})) == Some(Parent)
    ensures Cleaned({Parents, Students}) == {Parents, Students}
  {
    assert Duplicated({Parents, Students});
    assert {Parents, Students} * {Parents} == {Parents};
  }

  /** A processed user always has an intended role, and it outranks the
      role of every table the user is in. */
  lemma IntendedIsHighest(m: set<Table>, t: Table)
    requires Duplicated(m) && t in m
    ensures IntendedRole(m).Some? && IntendedRole(m).value.Rank() <= RoleOf(t).Rank()
  {
  }

  /** Afterwards the user is in exactly the intended role's tables, so the
      intended role is unchanged, and only a parent who is also a student is
      still in two tables. */
  lemma CleanedKeepsIntended(m: set<Table>)
    requires Duplicated(m)
    ensures Cleaned(m) == Kept(IntendedRole(m).value)
    ensures IntendedRole(Cleaned(m)) == IntendedRole(m)
    ensures Duplicated(Cleaned(m)) <==> IntendedRole(m) == Some(ParentStudent)
  {
    var r := IntendedRole(m).value;
    assert Kept(r) <= m;
    if Duplicated(Cleaned(m)) {
      var a, b :| a in Cleaned(m) && b in Cleaned(m) && a != b;
    }
    if r == ParentStudent {
      assert Parents in Cleaned(m) && Students in Cleaned(m);
    }
  }

  /** Running the clean-up twice changes nothing more. */
  lemma CleanedIdempotent(m: set<Table>)
    ensures Cleaned(Cleaned(m)) == Cleaned(m)
  {
    if Duplicated(m) {
      CleanedKeepsIntended(m);
      var r := IntendedRole(m).value;
      if Duplicated(Cleaned(m)) {
        CleanedKeepsIntended(Cleaned(m));
      }
    }
  }

  /** The role tables, as each user's set of tables. */
  class RoleTables {
    var member: map<string, set<Table>>

    constructor (member: map<string, set<Table>>)
      ensures this.member == member
    {
      this.member := member;
    }

    /** The loop over the duplicated users, deleting as written: each
        one's deletions commit together, unless they fail (`failing`), when
        that user alone is rolled back. */
    method Cleanup(users: seq<string>, failing: set<string>)
      modifies this
      ensures member.Keys == old(member).Keys
      ensures forall u :: u in member ==>
        member[u] == (if u in users && u !in failing then CleanedAsWritten(old(member)[u]) else old(member)[u])
    {
      var i := 0;
      while i < |users|
        invariant 0 <= i <= |users|
        invariant member.Keys == old(member).Keys
        invariant forall u :: u in member ==>
          member[u] == (if u in users[..i] && u !in failing then CleanedAsWritten(old(member)[u]) else old(member)[u])
      {
        var u := users[i];
        if u in member && Duplicated(member[u]) && u !in failing {
          var intended := IntendedRole(member[u]).value;
          member := member[u := member[u] * KeptAsWritten(intended)];
        }
        if u in member && u !in failing && Duplicated(old(member)[u]) {
          CleanedAsWrittenSingle(old(member)[u]);
        }
        assert users[..i + 1] == users[..i] + [u];
        i := i + 1;
      }
      assert users[..i] == users;
    }
  }
}
