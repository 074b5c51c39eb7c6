/**
 * authMiddleware(requiredRole) (middleware/auth.js): reads the Authorization
 * header, verifies it as a token and compares the verified role with the one
 * the route requires. Token verification is a parameter: it either yields
 * the token's claims or fails.
 */
module Auth {
  import opened Wrappers

  /** The claims a verified token carries, as issued at login: the user's id and role. */
  datatype Claims = Claims(id: string, role: string)

  /** Either a response is sent (and `next` is not called) or `next` is called with req.user set. */
  datatype AuthOutcome = Respond(status: int, message: string) | Proceed(user: Claims)

  const AccessDenied := Respond(401, "Access Denied")
  const InvalidToken := Respond(400, "Invalid Token")
  const Unauthorized := Respond(403, "Unauthorized")

  /** A header that is missing or empty counts as no token. */
  predicate HasToken(header: Option<string>) { header.Some? && header.value != "" }

  /**
   * The middleware for one request. Each of the four outcomes is described by
   * its own condition on the header, the verification result and the role;
   * the conditions are mutually exclusive and cover every request.
   */
  function Authorize(requiredRole: string, header: Option<string>, verify: string -> Option<Claims>): (r: AuthOutcome)
    ensures r == AccessDenied <==> !HasToken(header)
    ensures r == InvalidToken <==> HasToken(header) && verify(header.value).None?
    ensures r == Unauthorized <==>
      HasToken(header) && verify(header.value).Some? && verify(header.value).value.role != requiredRole
    ensures r.Proceed? <==>
      HasToken(header) && verify(header.value).Some? && verify(header.value).value.role == requiredRole
    ensures r.Proceed? ==> Some(r.user) == verify(header.value) && r.user.role == requiredRole
    ensures r.Respond? ==> r in {AccessDenied, InvalidToken, Unauthorized}
  {
    if !HasToken(header) then AccessDenied
    else
      match verify(header.value)
      case None => InvalidToken
      case Some(verified) =>
        if verified.role != requiredRole then Unauthorized
        else Proceed(verified)
  }
}
