/** The role hierarchy middleware of the server: the numeric level of each
    role, the minimum-role gate, the same-school gate, the rule for managing
    another user, and the permission flags of a user. Database lookups are
    maps from a user id to the stored value. */
module Rbac {
  import opened Common

  /** `ROLE_HIERARCHY[role]`: None for a role the table does not list. */
  function LevelOf(role: string): (l: Option<nat>)
    ensures l.Some? ==> l.value <= 5
    ensures l == Some(5) <==> role == "admin"
  {
    if role == "admin" then Some(5)
    else if role == "administrator" then Some(4)
    else if role == "supervisor" then Some(3)
    else if role == "teacher" then Some(2)
    else if role == "parent" then Some(1)
    else if role == "student" then Some(0)
    else None
  }

  /** Distinct roles have distinct levels, so the hierarchy is a strict order. */
  lemma LevelsDistinct(a: string, b: string)
    requires LevelOf(a).Some? && LevelOf(a) == LevelOf(b)
    ensures a == b
  {
  }

  /** `req.user.role?.toLowerCase()`. */
  function UserRole(role: Option<string>): Option<string> {
    if role.Some? then Some(ToLower(role.value)) else None
  }

  function UserLevel(role: Option<string>): Option<nat> {
    var r := UserRole(role);
    if r.Some? then LevelOf(r.value) else None
  }

  datatype User = User(id: string, role: Option<string>)

  datatype Reply = Next | Status(code: nat)

  const Forbidden: Reply := Status(403)

  /** `requireRole(minimumRole)`: 401 without a user; 403 when the user's role
      is unknown or below the minimum; a minimum the table does not list
      compares false, so any known role passes it. */
  function RequireRole(user: Option<User>, minimumRole: string): (r: Reply)
    ensures user.None? <==> r == Status(401)
    ensures user.Some? && UserLevel(user.value.role).None? ==> r == Status(403)
    ensures r == Next <==> (user.Some? && UserLevel(user.value.role).Some?
      && (LevelOf(minimumRole).None? || UserLevel(user.value.role).value >= LevelOf(minimumRole).value))
  {
    if user.None? then Status(401)
    else
      var userLevel := UserLevel(user.value.role);
      var required := LevelOf(minimumRole);
      if userLevel.None? || (required.Some? && userLevel.value < required.value) then Status(403)
      else Next
  }

  /** Passing a gate means passing every gate of a lower role. */
  lemma RequireRoleMonotone(user: Option<User>, high: string, low: string)
    requires LevelOf(high).Some? && LevelOf(low).Some? && LevelOf(low).value <= LevelOf(high).value
    requires RequireRole(user, high) == Next
    ensures RequireRole(user, low) == Next
  {
  }

  /** The school stored for each kind of staff member. */
  datatype SchoolTables = SchoolTables(administrators: map<string, int>, supervisors: map<string, int>,
                                       teachers: map<string, int>)

  function Lookup(m: map<string, int>, id: string): Option<int> {
    if id in m then Some(m[id]) else None
  }

  /** The school of the user's row, or null for roles without one. */
  function UserSchool(role: string, id: string, t: SchoolTables): Option<int> {
    if role == "administrator" then Lookup(t.administrators, id)
    else if role == "supervisor" then Lookup(t.supervisors, id)
    else if role == "teacher" then Lookup(t.teachers, id)
    else None
  }

  /** `req.params.school_id || req.body.school_id`. */
  function FirstTruthy(a: Option<string>, b: Option<string>): (r: Option<string>)
    ensures r.Some? ==> |r.value| > 0 && (r == a || r == b)
    ensures r.None? <==> (a.None? || |a.value| == 0) && (b.None? || |b.value| == 0)
  {
    if a.Some? && |a.value| > 0 then a else if b.Some? && |b.value| > 0 then b else None
  }

  /** `requireSchoolAccess`: the admin passes; without a target school 400;
      otherwise the stored school must equal `parseInt(target)` (a NaN equals
      nothing). */
  function RequireSchoolAccess(user: Option<User>, paramSchool: Option<string>, bodySchool: Option<string>,
                               t: SchoolTables): (r: Reply)
    ensures user.None? <==> r == Status(401)
    ensures user.Some? && UserRole(user.value.role) == Some("admin") ==> r == Next
    ensures user.Some? && UserRole(user.value.role) != Some("admin") && FirstTruthy(paramSchool, bodySchool).None?
      ==> r == Status(400)
    ensures r == Next && UserRole(user.value.role) != Some("admin") ==>
      var role := UserRole(user.value.role).GetOr("");
      UserSchool(role, user.value.id, t).Some?
      && ParseInt(FirstTruthy(paramSchool, bodySchool).value) == UserSchool(role, user.value.id, t)
    ensures user.Some? && UserRole(user.value.role) != Some("admin") && FirstTruthy(paramSchool, bodySchool).Some? ==>
      var mine := UserSchool(UserRole(user.value.role).GetOr(""), user.value.id, t);
      if mine.Some? && ParseInt(FirstTruthy(paramSchool, bodySchool).value) == mine then r == Next
      else r == Status(403)
  {
    if user.None? then Status(401)
    else
      var role := UserRole(user.value.role);
      if role == Some("admin") then Next
      else
        var target := FirstTruthy(paramSchool, bodySchool);
        if target.None? then Status(400)
        else
          var mine := UserSchool(role.GetOr(""), user.value.id, t);
          if mine.None? || ParseInt(target.value) != mine then Status(403) else Next
  }

  /** Parents and students have no stored school, so they never pass. */
  lemma FamilyNeverPassesSchoolGate(user: User, p: Option<string>, b: Option<string>, t: SchoolTables)
    requires UserRole(user.role) == Some("parent") || UserRole(user.role) == Some("student")
    ensures RequireSchoolAccess(Some(user), p, b, t) != Next
  {
  }

  /** `currentUserLevel <= targetUserLevel`: false when either is undefined. */
  predicate NotAbove(a: Option<nat>, b: Option<nat>) {
    a.Some? && b.Some? && a.value <= b.value
  }

  /** `canManageUser`, as written: 401, then 400 without a target, the admin
      passes, 404 for an unknown target, 403 unless strictly above the
      target, and a second supervisor rule. */
  function CanManageUser(user: Option<User>, paramTarget: Option<string>, bodyTarget: Option<string>,
                         roles: map<string, Option<string>>): (r: Reply)
    ensures user.None? <==> r == Status(401)
    ensures user.Some? && FirstTruthy(paramTarget, bodyTarget).None? ==> r == Status(400)
    ensures user.Some? && FirstTruthy(paramTarget, bodyTarget).Some? && UserRole(user.value.role) == Some("admin")
      ==> r == Next
    ensures user.Some? && FirstTruthy(paramTarget, bodyTarget).Some? && UserRole(user.value.role) != Some("admin")
      ==> var target := FirstTruthy(paramTarget, bodyTarget).value;
          (target !in roles ==> r == Status(404))
          && (target in roles && NotAbove(UserLevel(user.value.role), UserLevel(roles[target])) ==> r == Status(403))
    ensures r == Next <==>
      (user.Some? && FirstTruthy(paramTarget, bodyTarget).Some?
       && (UserRole(user.value.role) == Some("admin")
           || (FirstTruthy(paramTarget, bodyTarget).value in roles
               && !NotAbove(UserLevel(user.value.role), UserLevel(roles[FirstTruthy(paramTarget, bodyTarget).value])))))
  {
    if user.None? then Status(401)
    else
      var target := FirstTruthy(paramTarget, bodyTarget);
      if target.None? then Status(400)
      else
        var role := UserRole(user.value.role);
        if role == Some("admin") then Next
        else if target.value !in roles then Status(404)
        else
          var targetRole := UserRole(roles[target.value]);
          if NotAbove(UserLevel(user.value.role), UserLevel(roles[target.value])) then Status(403)
          else if role == Some("supervisor")
            && (targetRole == Some("supervisor") || targetRole == Some("administrator") || targetRole == Some("admin"))
          then Forbidden
          else Next
  }

  /** The supervisor rule never decides anything: the level comparison has
      already refused those targets. */
  lemma SupervisorRuleRedundant(user: User, target: string, roles: map<string, Option<string>>)
    requires UserRole(user.role) == Some("supervisor") && target in roles
    requires !NotAbove(UserLevel(user.role), UserLevel(roles[target]))
    ensures var t := UserRole(roles[target]);
      t != Some("supervisor") && t != Some("administrator") && t != Some("admin")
  {
  }

  /** As written, a user whose role the table does not list compares as not
      below anyone, so it may manage any existing user, an administrator
      included. */
  lemma UnknownRoleManagesAnyone(user: User, target: string, roles: map<string, Option<string>>)
    requires UserLevel(user.role).None? && |target| > 0 && target in roles
    ensures CanManageUser(Some(user), Some(target), None, roles) == Next
  {
  }

  /** Such roles exist: "guest" is one. */
  lemma GuestHasNoLevel()
    ensures UserRole(Some("guest")) == Some("guest") && UserLevel(Some("guest")).None?
  {
    LowerCaseFixed("guest");
  }

  /** A string without capital letters is its own lower case. */
  lemma LowerCaseFixed(s: string)
    requires forall i :: 0 <= i < |s| ==> !('A' <= s[i] <= 'Z')
    ensures ToLower(s) == s
  {
  }

  /** The evidently intended rule: the user's level must be known and
      strictly above the target's. */
  function CanManageUserIntended(user: Option<User>, paramTarget: Option<string>, bodyTarget: Option<string>,
                                 roles: map<string, Option<string>>): (r: Reply)
    ensures user.None? <==> r == Status(401)
    ensures user.Some? && FirstTruthy(paramTarget, bodyTarget).None? ==> r == Status(400)
    ensures r == Next && UserRole(user.value.role) != Some("admin") ==>
      var target := FirstTruthy(paramTarget, bodyTarget).value;
      target in roles && UserLevel(user.value.role).Some?
      && (UserLevel(roles[target]).None? || UserLevel(roles[target]).value < UserLevel(user.value.role).value)
  {
    if user.None? then Status(401)
    else
      var target := FirstTruthy(paramTarget, bodyTarget);
      if target.None? then Status(400)
      else if UserRole(user.value.role) == Some("admin") then Next
      else if target.value !in roles then Status(404)
      else
        var mine := UserLevel(user.value.role);
        var theirs := UserLevel(roles[target.value]);
        if mine.None? || (theirs.Some? && mine.value <= theirs.value) then Status(403) else Next
  }

  /** Under the intended rule nobody manages a user of equal or higher level. */
  lemma IntendedNeverManagesUpward(user: User, target: string, roles: map<string, Option<string>>)
    requires target in roles && UserRole(user.role) != Some("admin")
    requires UserLevel(roles[target]).Some?
    requires UserLevel(user.role).None? || UserLevel(user.role).value <= UserLevel(roles[target]).value
    ensures CanManageUserIntended(Some(user), Some(target), None, roles) != Next
  {
    if |target| == 0 {
      assert FirstTruthy(Some(target), None).None?;
    }
  }

  datatype Flags = Flags(canViewAllSchools: bool, canManageUsers: bool, canManageClasses: bool,
                         canViewReports: bool, canManageSchools: bool, canManagePrivileges: bool)

  datatype UserPermissions = UserPermissions(role: Option<string>, level: Option<nat>, schoolId: Option<int>, flags: Flags)

  /** `getUserPermissions`: null for an unknown user; the flags follow the role. */
  function GetUserPermissions(id: string, roles: map<string, Option<string>>, t: SchoolTables): (r: Option<UserPermissions>)
    ensures r.None? <==> id !in roles
    ensures r.Some? ==> r.value.role == UserRole(roles[id]) && r.value.level == UserLevel(roles[id])
    ensures r.Some? ==> (r.value.flags.canViewAllSchools <==> r.value.role == Some("admin"))
    ensures r.Some? ==> (r.value.flags.canManageClasses <==>
      r.value.role in {Some("admin"), Some("administrator"), Some("supervisor"), Some("teacher")})
    ensures r.Some? ==> (r.value.flags.canViewReports <==> r.value.flags.canManageClasses)
    ensures r.Some? && r.value.role.Some? && r.value.role != Some("admin") ==>
      r.value.schoolId == UserSchool(r.value.role.value, id, t)
    ensures r.Some? && r.value.schoolId.Some? ==>
      r.value.role in {Some("administrator"), Some("supervisor"), Some("teacher")}
    ensures r.Some? ==> (r.value.flags.canManageSchools <==> r.value.role == Some("admin"))
    ensures r.Some? ==> (r.value.flags.canManagePrivileges <==> r.value.role == Some("admin"))
    ensures r.Some? ==> (r.value.flags.canManageUsers <==> r.value.role in {Some("admin"), Some("administrator"), Some("supervisor")})
    ensures r.Some? && r.value.flags.canManageUsers ==> r.value.flags.canManageClasses && r.value.flags.canViewReports
    ensures r.Some? && r.value.role == Some("admin") ==> r.value.schoolId.None?
  {
    if id !in roles then None
    else
      var role := UserRole(roles[id]);
      var school := if role.None? || role == Some("admin") then None else UserSchool(role.value, id, t);
      var staff := role in {Some("admin"), Some("administrator"), Some("supervisor")};
      Some(UserPermissions(role, UserLevel(roles[id]), school,
        Flags(role == Some("admin"), staff, staff || role == Some("teacher"), staff || role == Some("teacher"),
              role == Some("admin"), role == Some("admin"))))
  }
}
