/** The browser-side privilege helpers: custom privileges fetched from the
    server (kept in a cache that expires after five minutes) override the
    built-in permissions of each role; routes map to a category and action;
    routes without a mapping fall back to a fixed role-to-route table. The
    server request is a parameter: `Some(p)` is its answer, `None` a failed
    request. */
module PrivilegeUtils {
  import opened Common

  /** Category name to action name to granted. */
  type CategoryPerms = map<string, bool>
  type Perms = map<string, CategoryPerms>

  const CacheDuration: int := 5 * 60 * 1000

  /** `cacheExpiry.get(userId) > now`, with an absent entry comparing false. */
  predicate Fresh(expiry: map<string, int>, userId: string, now: int) {
    userId in expiry && expiry[userId] > now
  }

  /** The two module-level maps of the cache. */
  class PrivilegeCache {
    var privileges: map<string, Perms>
    var expiry: map<string, int>

    predicate Valid()
      reads this
    {
      privileges.Keys == expiry.Keys
    }

    constructor()
      ensures Valid() && privileges == map[] && expiry == map[]
    {
      privileges := map[];
      expiry := map[];
    }

    /** `clearPrivilegeCache`: both maps become empty. */
    method Clear()
      modifies this
      ensures Valid() && privileges == map[] && expiry == map[]
    {
      privileges := map[];
      expiry := map[];
    }

    /** `getUserPrivileges`: nothing for an empty id; the cached entry while
        it has not expired; otherwise the server's answer, stored with an
        expiry five minutes on; a failed request gives nothing and is not
        stored. */
    method GetUserPrivileges(userId: string, now: int, fetched: Option<Perms>) returns (r: Perms)
      requires Valid()
      modifies this
      ensures Valid()
      ensures |userId| == 0 ==> r == map[] && privileges == old(privileges) && expiry == old(expiry)
      ensures |userId| > 0 && userId in old(privileges) && Fresh(old(expiry), userId, now) ==>
        r == old(privileges)[userId] && privileges == old(privileges) && expiry == old(expiry)
      ensures |userId| > 0 && !(userId in old(privileges) && Fresh(old(expiry), userId, now)) && fetched.Some? ==>
        r == fetched.value && privileges == old(privileges)[userId := fetched.value]
        && expiry == old(expiry)[userId := now + CacheDuration]
      ensures |userId| > 0 && !(userId in old(privileges) && Fresh(old(expiry), userId, now)) && fetched.None? ==>
        r == map[] && privileges == old(privileges) && expiry == old(expiry)
    {
      if |userId| == 0 {
        return map[];
      }
      if userId in privileges && Fresh(expiry, userId, now) {
        return privileges[userId];
      }
      if fetched.None? {
        return map[];
      }
      privileges := privileges[userId := fetched.value];
      expiry := expiry[userId := now + CacheDuration];
      r := fetched.value;
    }

    /** `refreshUserPrivileges`: the entry is dropped, then fetched afresh. */
    method RefreshUserPrivileges(userId: string, now: int, fetched: Option<Perms>) returns (r: Perms)
      requires Valid()
      modifies this
      ensures Valid()
      ensures |userId| > 0 && fetched.Some? ==> (r == fetched.value
        && privileges == old(privileges)[userId := fetched.value]
        && expiry == old(expiry)[userId := now + CacheDuration])
      ensures (|userId| == 0 || fetched.None?) ==> (r == map[]
        && privileges == old(privileges) - {userId} && expiry == old(expiry) - {userId})
    {
      if fetched.Some? {
        RemoveThenSet(privileges, userId, fetched.value);
        RemoveThenSet(expiry, userId, now + CacheDuration);
      }
      privileges := privileges - {userId};
      expiry := expiry - {userId};
      r := GetUserPrivileges(userId, now, fetched);
    }
  }

  /** Storing a key after dropping it is the same as storing it. */
  lemma RemoveThenSet<K, V>(m: map<K, V>, k: K, v: V)
    ensures (m - {k})[k := v] == m[k := v]
  {
  }

  /** An entry stored at `stored` is served exactly until five minutes later. */
  lemma EntryExpiresAfterFiveMinutes(expiry: map<string, int>, userId: string, stored: int, now: int)
    ensures Fresh(expiry[userId := stored + CacheDuration], userId, now) <==> now < stored + 300000
  {
  }

  /** `rolePermissions[role][category]`, `{}` for an unknown role or category. */
  function RoleCategory(role: string, category: string): (c: CategoryPerms)
    ensures role == "admin" && category in {"system", "schools", "users", "academic", "attendance", "reports"}
      ==> c == map["all" := true]
    ensures "all" in c ==> c["all"]
  {
    var all := map["all" := true];
    var view := map["view" := true];
    var noView := map["view" := false];
    if role == "admin" then
      (if category in {"system", "schools", "users", "academic", "attendance", "reports"} then all else map[])
    else if role == "administrator" then
      (if category == "system" then view
       else if category == "schools" then map["view" := true, "edit" := true]
       else if category == "users" then map["view" := true, "create" := true, "edit" := true]
       else if category == "academic" || category == "attendance" then all
       else if category == "reports" then map["view" := true, "create" := true]
       else map[])
    else if role == "supervisor" then
      (if category == "system" || category == "schools" then view
       else if category == "users" then map["view" := true, "create" := true, "edit" := true]
       else if category == "academic" || category == "attendance" then map["view" := true, "edit" := true]
       else if category == "reports" then map["view" := true, "create" := true]
       else map[])
    else if role == "teacher" then
      (if category == "system" then noView
       else if category == "schools" || category == "users" || category == "reports" then view
       else if category == "academic" then map["view" := true, "edit" := true]
       else if category == "attendance" then all
       else map[])
    else if role == "parent" || role == "student" then
      (if category == "system" || category == "users" then noView
       else if category in {"schools", "academic", "attendance", "reports"} then view
       else map[])
    else map[]
  }

  datatype User = User(id: string, role: string)

  /** `hasPermission`: false without a user or role; then, in this order, the
      custom entry for the action, the custom `all`, the role's `all`, the
      role's entry for the action, and false. */
  function HasPermission(user: Option<User>, custom: Perms, category: string, action: string): (b: bool)
    ensures user.None? || |user.value.role| == 0 ==> !b
    ensures user.Some? && |user.value.role| > 0 && category in custom && action in custom[category]
      ==> b == custom[category][action]
    ensures user.Some? && |user.value.role| > 0 && category in custom && action !in custom[category]
      && "all" in custom[category]
      ==> b == custom[category]["all"]
    ensures user.Some? && |user.value.role| > 0
      && (category !in custom || (action !in custom[category] && "all" !in custom[category]))
      ==> (b <==> "all" in RoleCategory(user.value.role, category)
                  || (action in RoleCategory(user.value.role, category)
                      && RoleCategory(user.value.role, category)[action]))
  {
    if user.None? || |user.value.role| == 0 then false
    else
      var rolePerms := RoleCategory(user.value.role, category);
      var customPerms := if category in custom then custom[category] else map[];
      if action in customPerms then customPerms[action]
      else if "all" in customPerms then customPerms["all"]
      else if "all" in rolePerms then rolePerms["all"]
      else action in rolePerms && rolePerms[action]
  }

  /** Without a custom entry for the category, the role table decides. */
  lemma NoCustomMeansRoleTable(user: User, custom: Perms, category: string, action: string)
    requires |user.role| > 0 && category !in custom
    ensures HasPermission(Some(user), custom, category, action) <==>
      ("all" in RoleCategory(user.role, category) || (action in RoleCategory(user.role, category)
        && RoleCategory(user.role, category)[action]))
  {
  }

  /** A custom `all` decides every action the custom entry does not name. */
  lemma CustomAllOverridesRole(user: User, custom: Perms, category: string, action: string)
    requires |user.role| > 0 && category in custom && action !in custom[category] && "all" in custom[category]
    ensures HasPermission(Some(user), custom, category, action) == custom[category]["all"]
  {
  }

  /** An admin without custom privileges for a known category holds every action. */
  lemma AdminHoldsEverything(custom: Perms, category: string, action: string, id: string)
    requires category !in custom
    requires category in {"system", "schools", "users", "academic", "attendance", "reports"}
    ensures HasPermission(Some(User(id, "admin")), custom, category, action)
  {
  }

  /** The role table has no `manage` entries, so without custom privileges only
      an `all` grants the `manage` action. */
  lemma ManageNeedsAll(user: User, category: string)
    requires |user.role| > 0 && "all" !in RoleCategory(user.role, category)
    ensures !HasPermission(Some(user), map[], category, "manage")
  {
  }

  /** The category and action guarding each mapped route. */
  function RoutePermission(route: string): (p: Option<(string, string)>)
    ensures p.Some? ==> p.value.0 in {"system", "schools", "users", "academic", "attendance", "reports"}
  {
    if route == "/schools" then Some(("schools", "view"))
    else if route == "/administrators" || route == "/user-management" then Some(("users", "manage"))
    else if route == "/admin-roots" || route == "/privilege-management" || route == "/database" then Some(("system", "manage"))
    else if route == "/password-management" then Some(("users", "edit"))
    else if route == "/classes" then Some(("academic", "view"))
    else if route == "/semesters" || route == "/class-courses" then Some(("academic", "manage"))
    else if route == "/teachers" || route == "/students" || route == "/parents" then Some(("users", "view"))
    else if route == "/grading" || route == "/points-management" then Some(("academic", "edit"))
    else if route == "/attendance" then Some(("attendance", "manage"))
    else if route == "/daily-reports" then Some(("reports", "view"))
    else None
  }

  /** The fallback table of routes per role. */
  function RoleRoutes(role: string): (routes: seq<string>)
    ensures role !in {"admin", "administrator", "supervisor", "teacher", "parent", "student"} ==> routes == []
    ensures "" !in routes
  {
    if role == "admin" then
      ["/schools", "/administrators", "/admin-roots", "/user-management", "/privilege-management", "/database",
       "/password-management", "/classes", "/semesters", "/class-courses", "/teachers", "/students", "/parents",
       "/grading", "/attendance", "/points-management", "/daily-reports"]
    else if role == "administrator" then
      ["/classes", "/semesters", "/class-courses", "/password-management", "/grading", "/attendance",
       "/points-management", "/daily-reports"]
    else if role == "supervisor" then ["/teachers", "/parents", "/students", "/points-management", "/daily-reports"]
    else if role == "teacher" then ["/students", "/grading", "/attendance", "/points-management"]
    else if role == "parent" then ["/my-students", "/children"]
    else if role == "student" then ["/student-points"]
    else []
  }

  /** `checkRoleAccess`: the route is in the role's list. */
  function CheckRoleAccess(role: string, route: string): (b: bool)
    ensures b <==> route in RoleRoutes(role)
    ensures role !in {"admin", "administrator", "supervisor", "teacher", "parent", "student"} ==> !b
  {
    exists i :: 0 <= i < |RoleRoutes(role)| && RoleRoutes(role)[i] == route
  }

  /** `hasRouteAccess`: a mapped route asks `hasPermission`; any other route
      falls back to the role's route list. */
  function HasRouteAccess(user: Option<User>, custom: Perms, route: string): (b: bool)
    ensures user.None? || |user.value.role| == 0 ==> !b
    ensures user.Some? && |user.value.role| > 0 && RoutePermission(route).None?
      ==> (b <==> route in RoleRoutes(user.value.role))
    ensures user.Some? && |user.value.role| > 0 && RoutePermission(route).Some?
      ==> b == HasPermission(user, custom, RoutePermission(route).value.0, RoutePermission(route).value.1)
  {
    if user.None? || |user.value.role| == 0 then false
    else
      var p := RoutePermission(route);
      if p.None? then CheckRoleAccess(user.value.role, route)
      else HasPermission(user, custom, p.value.0, p.value.1)
  }

  /** The required roles of a navigation item: one role or a list. */
  datatype Required = OneRole(role: string) | Roles(roles: seq<string>)

  /** `canAccessNavItem`: no requirement (or an empty role name) admits
      everyone; a listed role admits; otherwise, when the item has a route,
      the route check decides. */
  function CanAccessNavItem(user: Option<User>, required: Option<Required>, route: Option<string>, custom: Perms): (b: bool)
    ensures required.None? ==> b
    ensures required.Some? && required.value.Roles? && user.Some? && user.value.role in required.value.roles ==> b
    ensures route.None? && required.Some? && required.value.Roles? ==>
      (b <==> user.Some? && user.value.role in required.value.roles)
    ensures required.Some? && required.value.OneRole? && user.Some? && user.value.role == required.value.role ==> b
    ensures required.Some? && route.Some? && HasRouteAccess(user, custom, route.value) ==> b
    ensures required.Some? && required != Some(OneRole("")) && !b ==>
      !(user.Some? && (if required.value.Roles? then user.value.role in required.value.roles
                       else user.value.role == required.value.role))
    ensures required.Some? && route.Some? && !b ==> !HasRouteAccess(user, custom, route.value)
  {
    if required.None? || required == Some(OneRole("")) then true
    else
      var roleAccess := match required.value
        case Roles(roles) => user.Some? && user.value.role in roles
        case OneRole(r) => user.Some? && user.value.role == r;
      if !roleAccess && route.Some? && |route.value| > 0 then HasRouteAccess(user, custom, route.value)
      else
        EmptyRouteDenied(user, custom);
        roleAccess
  }

  /** No role's route list holds the empty route, and no permission maps to
      it, so the empty route is never accessible. */
  lemma EmptyRouteDenied(user: Option<User>, custom: Perms)
    ensures !HasRouteAccess(user, custom, "")
  {
    if user.Some? && |user.value.role| > 0 {
      assert RoutePermission("").None?;
    }
  }
}
