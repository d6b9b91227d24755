/**
 * Role-based authorisation: each endpoint names the roles allowed to call it,
 * and a caller whose role is not among them is refused with 403.
 */
module Auth {
  import opened Http
  import opened Models

  /** Roles allowed to create employees and to adjust leave balances. */
  const ADMIN_HR: seq<Role> := [Role.Admin, Role.HR]
  /** Roles allowed to list employees and to read one employee. */
  const ADMIN_HR_MANAGER: seq<Role> := [Role.Admin, Role.HR, Role.Manager]

  function RoleRepr(r: Role): string
  {
    match r
    case Admin => "<UserRole.ADMIN: 'admin'>"
    case HR => "<UserRole.HR: 'hr'>"
    case Manager => "<UserRole.MANAGER: 'manager'>"
    case Employee => "<UserRole.EMPLOYEE: 'employee'>"
  }

  /** The rendering of a Python list of roles inside the 403 detail. */
  function RolesRepr(roles: seq<Role>): string
  {
    "[" + JoinRoles(roles) + "]"
  }

  function JoinRoles(roles: seq<Role>): string
  {
    if |roles| == 0 then ""
    else if |roles| == 1 then RoleRepr(roles[0])
    else RoleRepr(roles[0]) + ", " + JoinRoles(roles[1..])
  }

  function AccessDenied(allowed: seq<Role>): HttpError
  {
    HttpError(FORBIDDEN, "Access denied. Required roles: " + RolesRepr(allowed))
  }

  /** The dependency every protected endpoint runs before its body. */
  function RequireRole(caller: User, allowed: seq<Role>): (r: Result<User>)
    ensures r.Ok? <==> caller.role in allowed
    ensures r.Ok? ==> r.value == caller
    ensures r.Err? ==> r.error == AccessDenied(allowed) && r.error.status == FORBIDDEN
  {
    if caller.role !in allowed then Err(AccessDenied(allowed)) else Ok(caller)
  }

  /** Which roles pass which gate. */
  lemma GateMembership(role: Role)
    ensures role in ADMIN_HR <==> role == Role.Admin || role == Role.HR
    ensures role in ADMIN_HR_MANAGER <==> role != Role.Employee
  {
  }
}
