/** src/v1/middlewares/role.middleware.ts: the allow-list check run after authentication. */
module RoleMiddleware {
  import opened Wrappers
  import opened AuthMiddleware

  datatype RoleDecision = Proceed | Deny(status: int, message: string)

  const Insufficient := "Access denied. Insufficient permissions."

  /** `checkRole(...allowedRoles)` applied to a request whose `req.user` may be absent. */
  function CheckRole(allowedRoles: seq<string>, user: Option<RequestUser>): (d: RoleDecision)
    ensures d.Proceed? <==> user.Some? && user.value.role in allowedRoles
    ensures d.Deny? ==> d == Deny(403, Insufficient)
  {
    if user.None? || user.value.role !in allowedRoles then Deny(403, Insufficient) else Proceed
  }

  /** `checkRole()` with no roles lets nobody through. */
  lemma EmptyAllowListDeniesAll(user: Option<RequestUser>)
    ensures CheckRole([], user) == Deny(403, Insufficient)
  {
  }
}
