/**
 The `auth.status` query of the web API: whether the caller has a session
 user and whether that user is an admin, which means holding the mentor role.
 */
module AuthStatus {
  import opened Wrappers

  /** The session user; the roles column may be null. */
  datatype SessionUser = SessionUser(id: string, roles: Option<seq<string>>)

  datatype Status = Status(isAuthenticated: bool, isAdmin: bool)

  /** `!!ctx.user` and `ctx.user?.roles?.includes(mentorRoleId) ?? false`. */
  function StatusOf(user: Option<SessionUser>, mentorRoleId: string): (s: Status)
    ensures s.isAuthenticated <==> user.Some?
    ensures s.isAdmin <==> user.Some? && user.value.roles.Some? && mentorRoleId in user.value.roles.value
  {
    var isAdmin :=
      match user
      case None => None
      case Some(u) =>
        match u.roles
        case None => None
        case Some(roles) => Some(mentorRoleId in roles);
    Status(user.Some?, isAdmin.GetOr(false))
  }

  /** Every admin is authenticated; without a user, or without roles, nobody is an admin. */
  lemma AdminIsAuthenticated(user: Option<SessionUser>, mentorRoleId: string)
    ensures StatusOf(user, mentorRoleId).isAdmin ==> StatusOf(user, mentorRoleId).isAuthenticated
    ensures user.None? || user.value.roles.None? ==> !StatusOf(user, mentorRoleId).isAdmin
  {
  }
}
