/** The access decision of the access-control layer: an action is allowed
    when the role's permission for the resource grants it and the role's
    scope covers the resource. Absent identifiers are None; two absent
    identifiers compare equal, as `===` on `undefined` does. */
module PrivilegeChecker {
  import opened Common
  import opened RoleDefinitions

  datatype AccessContext = AccessContext(
    userId: string, role: Role, schoolId: Option<string>,
    classIds: Option<seq<string>>, childrenIds: Option<seq<string>>)

  datatype ResourceAccess = ResourceAccess(
    resource: string, action: string, ownerId: Option<string>,
    schoolId: Option<string>, classId: Option<string>)

  /** `x?.includes(y) || false`. */
  predicate Includes(xs: Option<seq<string>>, y: string) {
    xs.Some? && y in xs.value
  }

  /** `hasPermissionForAction`: only view, edit and delete can be granted. */
  function PermitsAction(p: Permission, action: string): (ok: bool)
    ensures ok ==> action == "view" || action == "edit" || action == "delete"
    ensures action == "view" ==> ok == p.view
    ensures action == "edit" ==> ok == p.edit
    ensures action == "delete" ==> ok == p.delete
  {
    if action == "view" then p.view
    else if action == "edit" then p.edit
    else if action == "delete" then p.delete
    else false
  }

  predicate SchoolAccess(c: AccessContext, ra: ResourceAccess) {
    c.schoolId == ra.schoolId
  }

  predicate ClassAccess(c: AccessContext, ra: ResourceAccess) {
    SchoolAccess(c, ra) && Includes(c.classIds, ra.classId.GetOr(""))
  }

  predicate ParentChildrenAccess(c: AccessContext, ra: ResourceAccess) {
    ra.ownerId == Some(c.userId) || Includes(c.childrenIds, ra.ownerId.GetOr(""))
  }

  /** `hasScope`. */
  function InScope(c: AccessContext, ra: ResourceAccess, scope: Scope): (ok: bool)
    ensures scope == Global ==> ok
    ensures scope == ProfileLevel || scope == StudentSelf ==> (ok <==> ra.ownerId == Some(c.userId))
    ensures scope == SchoolLevel ==> (ok <==> c.schoolId == ra.schoolId)
    ensures scope == ClassLevel ==>
      (ok <==> c.schoolId == ra.schoolId && c.classIds.Some? && ra.classId.GetOr("") in c.classIds.value)
    ensures scope == ParentChildren ==>
      (ok <==> ra.ownerId == Some(c.userId) || (c.childrenIds.Some? && ra.ownerId.GetOr("") in c.childrenIds.value))
  {
    match scope
    case Global => true
    case SchoolLevel => SchoolAccess(c, ra)
    case ClassLevel => ClassAccess(c, ra)
    case ProfileLevel => ra.ownerId == Some(c.userId)
    case ParentChildren => ParentChildrenAccess(c, ra)
    case StudentSelf => ra.ownerId == Some(c.userId)
  }

  /** `hasAccess`: both the permission and the scope must allow it. */
  function HasAccess(c: AccessContext, ra: ResourceAccess): (ok: bool)
    ensures ok <==> PermitsAction(PermissionsForRole(c.role, Some(ra.resource)), ra.action)
                    && InScope(c, ra, ScopeOf(c.role))
  {
    PermitsAction(PermissionsForRole(c.role, Some(ra.resource)), ra.action) && InScope(c, ra, ScopeOf(c.role))
  }

  /** Deleting needs a full-access role; any action other than the three is refused. */
  lemma HasAccessBounds(c: AccessContext, ra: ResourceAccess)
    ensures HasAccess(c, ra) && ra.action == "delete" ==> c.role == Admin || c.role == Administrator
    ensures ra.action != "view" && ra.action != "edit" && ra.action != "delete" ==> !HasAccess(c, ra)
  {
  }

  /** A teacher reaches a resource only in its own school and one of its classes. */
  lemma TeacherNeedsClass(c: AccessContext, ra: ResourceAccess)
    requires c.role == Teacher && HasAccess(c, ra)
    ensures c.schoolId == ra.schoolId && c.classIds.Some? && ra.classId.GetOr("") in c.classIds.value
  {
  }

  /** A parent reaches its own resources and its children's, a student only its own. */
  lemma FamilyScopes(c: AccessContext, ra: ResourceAccess)
    requires HasAccess(c, ra)
    ensures c.role == Student ==> ra.ownerId == Some(c.userId)
    ensures c.role == Parent ==> ra.ownerId == Some(c.userId) || Includes(c.childrenIds, ra.ownerId.GetOr(""))
  {
  }

  function CanView(c: AccessContext, resource: string, ownerId: Option<string>, schoolId: Option<string>,
                   classId: Option<string>): (ok: bool)
    ensures ok <==> InScope(c, ResourceAccess(resource, "view", ownerId, schoolId, classId), ScopeOf(c.role))
  {
    HasAccess(c, ResourceAccess(resource, "view", ownerId, schoolId, classId))
  }

  function CanEdit(c: AccessContext, resource: string, ownerId: Option<string>, schoolId: Option<string>,
                   classId: Option<string>): (ok: bool)
    ensures ok <==> PermissionsForRole(c.role, Some(resource)).edit
                    && InScope(c, ResourceAccess(resource, "edit", ownerId, schoolId, classId), ScopeOf(c.role))
  {
    HasAccess(c, ResourceAccess(resource, "edit", ownerId, schoolId, classId))
  }

  function CanDelete(c: AccessContext, resource: string, ownerId: Option<string>, schoolId: Option<string>,
                     classId: Option<string>): (ok: bool)
    ensures ok <==> (c.role == Admin || c.role == Administrator)
                    && InScope(c, ResourceAccess(resource, "delete", ownerId, schoolId, classId), ScopeOf(c.role))
  {
    HasAccess(c, ResourceAccess(resource, "delete", ownerId, schoolId, classId))
  }

  /** A list of ids, or 'all'. */
  datatype Accessible = All | Only(ids: seq<string>)

  /** `getAccessibleSchools`. */
  function AccessibleSchools(c: AccessContext): (r: Accessible)
    ensures r.All? <==> ScopeOf(c.role) == Global
    ensures r.Only? ==> (r.ids == [] <==> c.schoolId.None? || |c.schoolId.value| == 0)
    ensures r.Only? && r.ids != [] ==> r.ids == [c.schoolId.value]
  {
    if ScopeOf(c.role) == Global then All
    else if c.schoolId.Some? && |c.schoolId.value| > 0 then Only([c.schoolId.value])
    else Only([])
  }

  /** `getAccessibleClasses`: all for global and school-level scopes. */
  function AccessibleClasses(c: AccessContext): (r: Accessible)
    ensures r.All? <==> ScopeOf(c.role) == Global || ScopeOf(c.role) == SchoolLevel
    ensures r.Only? ==> r.ids == c.classIds.GetOr([])
  {
    if ScopeOf(c.role) == Global || ScopeOf(c.role) == SchoolLevel then All
    else Only(c.classIds.GetOr([]))
  }

  /** `canAccessStudent`. */
  function CanAccessStudent(c: AccessContext, studentId: string, classId: Option<string>,
                            schoolId: Option<string>): (ok: bool)
    ensures c.role == Admin ==> ok
    ensures c.role == Administrator || c.role == Supervisor ==> (ok <==> schoolId == c.schoolId)
    ensures c.role == Teacher ==> (ok <==> schoolId == c.schoolId && Includes(c.classIds, classId.GetOr("")))
    ensures c.role == Parent ==> (ok <==> Includes(c.childrenIds, studentId))
    ensures c.role == Student ==> (ok <==> studentId == c.userId)
  {
    match c.role
    case Admin => true
    case Administrator => schoolId == c.schoolId
    case Supervisor => schoolId == c.schoolId
    case Teacher => schoolId == c.schoolId && Includes(c.classIds, classId.GetOr(""))
    case Parent => Includes(c.childrenIds, studentId)
    case Student => studentId == c.userId
  }

  /** `getAccessibleStudents`. */
  function AccessibleStudents(c: AccessContext): (r: Accessible)
    ensures c.role == Parent ==> r == Only(c.childrenIds.GetOr([]))
    ensures c.role == Student ==> r == Only([c.userId])
    ensures r.All? <==> c.role != Parent && c.role != Student
  {
    match c.role
    case Parent => Only(c.childrenIds.GetOr([]))
    case Student => Only([c.userId])
    case _ => All
  }

  /** The student list never leaves out a student the role may reach, and for
      parents and students it names exactly those. */
  lemma AccessibleStudentsCoverAccess(c: AccessContext, studentId: string, classId: Option<string>,
                                      schoolId: Option<string>)
    ensures CanAccessStudent(c, studentId, classId, schoolId) ==>
      AccessibleStudents(c).All? || studentId in AccessibleStudents(c).ids
    ensures c.role == Parent || c.role == Student ==>
      (CanAccessStudent(c, studentId, classId, schoolId) <==> studentId in AccessibleStudents(c).ids)
  {
  }
}
