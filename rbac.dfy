/** Role-based access control (backend/src/middleware/rbac.js):
    `authorize(...roles)` builds a middleware that lets a request through
    only when `protect` attached a user whose role is among `roles`. */
module Rbac {
  import opened Base
  import opened UserModel

  datatype Decision = Unauthenticated | Forbidden(message: string) | Proceed

  const NoUserMessage := "Not authorized — please authenticate first"

  function ForbiddenMessage(role: Role): string
  {
    "Forbidden — role '" + RoleName(role) + "' does not have access to this resource"
  }

  /** The HTTP status of a rejection; a request that proceeds is answered
      by the next handler. */
  function DecisionStatus(d: Decision): (status: int)
    requires !d.Proceed?
    ensures d.Unauthenticated? ==> status == 401
    ensures d.Forbidden? ==> status == 403
  {
    if d.Unauthenticated? then 401 else 403
  }

  /** `authorize(...roles)` applied to a request whose `req.user` is `user`:
      401 without a user, 403 when the role is not listed, otherwise next. */
  function Authorize(roles: seq<Role>, user: Option<User>): (d: Decision)
    ensures user.None? ==> d == Unauthenticated
    ensures user.Some? ==> (d.Proceed? <==> user.value.role in roles)
    ensures user.Some? && user.value.role !in roles ==> d == Forbidden(ForbiddenMessage(user.value.role))
  {
    if user.None? then Unauthenticated
    else if user.value.role !in roles then Forbidden(ForbiddenMessage(user.value.role))
    else Proceed
  }

  /** Without an authenticated user the answer is 401, whatever roles are
      allowed. */
  lemma NoUserIsUnauthenticated(roles: seq<Role>)
    ensures DecisionStatus(Authorize(roles, None)) == 401
  {
  }

  /** An empty role list admits nobody. */
  lemma EmptyRoleListRejectsEveryone(u: User)
    ensures DecisionStatus(Authorize([], Some(u))) == 403
  {
  }

  /** `authorize('admin', 'user')` admits every authenticated user;
      `authorize('admin')` admits exactly the admins. */
  lemma AdminAndUserAdmitsBoth(u: User)
    ensures Authorize([AdminRole, UserRole], Some(u)) == Proceed
    ensures Authorize([AdminRole], Some(u)) == Proceed <==> u.role == AdminRole
    ensures u.role == UserRole ==> DecisionStatus(Authorize([AdminRole], Some(u))) == 403
  {
  }
}
