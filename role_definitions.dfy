/** The role table of the access-control layer: each role's privilege type,
    scope and default permission, and the per-resource permissions that
    override the default. */
module RoleDefinitions {
  import opened Common

  datatype Role = Admin | Administrator | Supervisor | Teacher | Parent | Student

  datatype PrivilegeType = FullAccess | EditAccess | ReadOnly

  datatype Scope = Global | SchoolLevel | ClassLevel | ProfileLevel | ParentChildren | StudentSelf

  datatype Permission = Permission(view: bool, edit: bool, delete: bool)

  const FullPermission: Permission := Permission(true, true, true)
  const EditPermission: Permission := Permission(true, true, false)
  const ReadPermission: Permission := Permission(true, false, false)

  function Privilege(r: Role): PrivilegeType {
    match r
    case Admin => FullAccess
    case Administrator => FullAccess
    case Supervisor => EditAccess
    case Teacher => EditAccess
    case Parent => ReadOnly
    case Student => ReadOnly
  }

  function ScopeOf(r: Role): Scope {
    match r
    case Admin => Global
    case Administrator => SchoolLevel
    case Supervisor => SchoolLevel
    case Teacher => ClassLevel
    case Parent => ParentChildren
    case Student => StudentSelf
  }

  /** The role's default permission, which follows its privilege type. */
  function DefaultPermission(r: Role): (p: Permission)
    ensures Privilege(r) == FullAccess ==> p == FullPermission
    ensures Privilege(r) == EditAccess ==> p == EditPermission
    ensures Privilege(r) == ReadOnly ==> p == ReadPermission
  {
    match r
    case Admin => FullPermission
    case Administrator => FullPermission
    case Supervisor => EditPermission
    case Teacher => EditPermission
    case Parent => ReadPermission
    case Student => ReadPermission
  }

  /** `customPermissions[resource]`, when the role has an entry for it. */
  function Custom(r: Role, resource: string): Option<Permission> {
    match r
    case Teacher =>
      if resource in {"students", "student_profiles", "student_grades", "student_attendance",
                      "student_behavior", "class_materials", "assignments", "class_announcements"}
      then Some(EditPermission) else None
    case Parent =>
      if resource == "children_profiles" || resource == "own_profile" then Some(EditPermission)
      else if resource in {"children_grades", "children_attendance", "children_behavior", "children_reports"}
      then Some(ReadPermission) else None
    case Student =>
      if resource == "own_profile" then Some(EditPermission)
      else if resource in {"own_grades", "own_attendance", "own_performance", "announcements"}
      then Some(ReadPermission) else None
    case _ => None
  }

  /** `getPermissionsForRole`: the custom entry for a given resource, else the default. */
  function PermissionsForRole(r: Role, resource: Option<string>): (p: Permission)
    ensures resource.Some? && |resource.value| > 0 && Custom(r, resource.value).Some? ==>
      p == Custom(r, resource.value).value
    ensures resource.None? || |resource.value| == 0 || Custom(r, resource.value).None? ==>
      p == DefaultPermission(r)
    ensures p.view
    ensures p.delete <==> r == Admin || r == Administrator
  {
    if resource.Some? && |resource.value| > 0 && Custom(r, resource.value).Some?
    then Custom(r, resource.value).value
    else DefaultPermission(r)
  }

  /** Only the two full-access roles may ever delete, and no custom entry grants it. */
  lemma DeleteOnlyFullAccess(r: Role, resource: string)
    ensures Custom(r, resource).Some? ==> !Custom(r, resource).value.delete
    ensures PermissionsForRole(r, Some(resource)).delete ==> Privilege(r) == FullAccess
  {
  }

  /** Parents and students read only, except their own profile and, for a
      parent, the children's profiles. */
  lemma ReadOnlyRoles(r: Role, resource: string)
    requires r == Parent || r == Student
    ensures PermissionsForRole(r, Some(resource)).edit <==>
      resource == "own_profile" || (r == Parent && resource == "children_profiles")
  {
  }

  /** A custom entry for a resource overrides the role default, and it
      changes the outcome only where it lets a read-only role edit: the
      teacher's entries repeat its default and the parent's and student's
      read entries repeat theirs. */
  lemma CustomOverridesDefault(r: Role, resource: string)
    ensures Custom(r, resource).Some? ==> PermissionsForRole(r, Some(resource)) == Custom(r, resource).value
    ensures PermissionsForRole(r, Some(resource)) != DefaultPermission(r) <==>
      (r == Parent || r == Student) && Custom(r, resource) == Some(EditPermission)
  {
    if Custom(r, resource).Some? {
      assert |resource| > 0;
    }
  }
}
