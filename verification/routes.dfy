/** How a route is protected: not at all, or by `@UseGuards(AuthGuard)`
    together with `@Roles(...)`. Every guarded handler of the two controllers
    carries roles metadata, so a guarded route always checks roles. */
module Routes {
  import opened Results
  import opened UserSchema
  import opened AuthGuard

  datatype Access = Public | Guarded(roles: seq<Role>)

  /** The Authorization header carries a usable token that the JWT oracle
      accepts, with a payload of role `role`. */
  predicate VerifiedAs(authorization: Option<string>, verify: string -> Result<Claims>, role: Role)
  {
    var token := ExtractTokenFromHeader(authorization);
    && token.Some? && token.value != ""
    && verify(token.value).Ok? && verify(token.value).value.role == role
  }

  /** What the guard layer decides before the handler runs: a public route
      always proceeds (with no `request.user`); a guarded route proceeds with
      the verified payload exactly when its role is listed, and otherwise
      fails as `canActivate` does. */
  function Authorize(access: Access, authorization: Option<string>, verify: string -> Result<Claims>)
    : (r: Result<Option<Claims>>)
    ensures access.Public? ==> r == Ok(None)
    ensures access.Guarded? ==>
      (r.Ok? <==> exists role :: role in access.roles && VerifiedAs(authorization, verify, role))
    ensures access.Guarded? && r.Ok? ==>
      var token := ExtractTokenFromHeader(authorization);
      token.Some? && r.value == Some(verify(token.value).value)
    ensures access.Guarded? && r.Err? ==> r.error == CanActivate(authorization, verify, Some(access.roles)).error
  {
    match access
    case Public => Ok(None)
    case Guarded(roles) =>
      var payload :- CanActivate(authorization, verify, Some(roles));
      Ok(Some(payload))
  }

  /** A route proceeds only after its guard: a refused request never reaches the handler. */
  function Dispatch<T>(access: Access, authorization: Option<string>, verify: string -> Result<Claims>,
                       handler: Result<T>): (r: Result<T>)
    ensures Authorize(access, authorization, verify).Ok? ==> r == handler
    ensures Authorize(access, authorization, verify).Err? ==> r == Err(Authorize(access, authorization, verify).error)
  {
    var _ :- Authorize(access, authorization, verify);
    handler
  }
}
