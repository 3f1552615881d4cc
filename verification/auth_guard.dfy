/** `AuthGuard.canActivate` of `auth.guard.ts`: bearer-header parsing, token
    verification, the role check against the handler's `@Roles` metadata, and
    the mapping of verification errors. The JWT check itself is an oracle:
    `verify(token)` is the payload `jwtService.verifyAsync` resolves to, or the
    error it rejects with. */
module AuthGuard {
  import opened Results
  import opened JsString
  import opened UserSchema

  const TOKEN_NOT_PROVIDED := "Authorization token not provided"
  const INSUFFICIENT_PERMISSIONS := "Insufficient permissions"
  const TOKEN_EXPIRED := "Authorization token has expired"
  const INVALID_TOKEN := "Invalid authorization token"

  /** What precedes the token in a well-formed header. */
  const BEARER_PREFIX := "Bearer "

  /** The fields of a header that starts with "Bearer ": the first is exactly
      "Bearer", there is a second one, and the second is the longest
      space-free prefix of what follows "Bearer ". Conversely a header whose
      first field is "Bearer" and that has a second field starts with "Bearer ". */
  lemma BearerFields(header: string)
    ensures var fields := Split(header, ' ');
      BEARER_PREFIX <= header <==> (fields[0] == "Bearer" && |fields| >= 2)
    ensures BEARER_PREFIX <= header ==> Split(header, ' ')[1] == Split(header[7..], ' ')[0]
  {
    var fields := Split(header, ' ');
    if BEARER_PREFIX <= header {
      assert header[..6] == "Bearer";
      assert ' ' !in header[..6];
      IndexOfUnique(header, ' ', 6);
    }
  }

  /** `extractTokenFromHeader`: the second space-separated field of the
      Authorization header when its first field is exactly "Bearer", and
      nothing otherwise. So a token is found exactly when the header starts
      with "Bearer "; it is the text after that prefix up to the next space (it
      may be empty), and any later fields are ignored. */
  function ExtractTokenFromHeader(authorization: Option<string>): (token: Option<string>)
    ensures token.Some? <==> authorization.Some? && BEARER_PREFIX <= authorization.value
    ensures token.Some? ==>
      && ' ' !in token.value
      && BEARER_PREFIX + token.value <= authorization.value
      && (|BEARER_PREFIX + token.value| == |authorization.value|
          || authorization.value[|BEARER_PREFIX + token.value|] == ' ')
  {
    match authorization
    case None => None
    case Some(header) =>
      var fields := Split(header, ' ');
      BearerFields(header);
      if fields[0] == "Bearer" && |fields| >= 2 then
        var t := fields[1];
        assert header == BEARER_PREFIX + header[7..];
        assert t <= header[7..];
        Some(t)
      else
        None
  }

  /** The token issued at sign-in travels through the header unchanged:
      `'Bearer ' + t` yields `t` back whenever `t` has no space. */
  lemma {:induction false} HeaderRoundTrip(t: string)
    requires ' ' !in t
    ensures ExtractTokenFromHeader(Some(BEARER_PREFIX + t)) == Some(t)
  {
    var header := BEARER_PREFIX + t;
    var token := ExtractTokenFromHeader(Some(header));
    var u := token.value;
    assert header[7..] == t;
    assert u <= t;
  }

  /** The try block of `canActivate`: verify the token, then, when the handler
      carries roles, demand that the payload's role is one of them. */
  function VerifyAndCheckRole(token: string, verify: string -> Result<Claims>,
                              roles: Option<seq<Role>>): Result<Claims>
  {
    var payload :- verify(token);
    :- Need(roles.None? || payload.role in roles.value, Unauthorized(INSUFFICIENT_PERMISSIONS));
    Ok(payload)
  }

  /** The catch block of `canActivate`, keyed on `error.name`. */
  function MapGuardError(e: Failure): Failure
  {
    if e.JsError? && e.name == "TokenExpiredError" then Unauthorized(TOKEN_EXPIRED)
    else if e.JsError? && e.name == "JsonWebTokenError" then Unauthorized(INVALID_TOKEN)
    else e
  }

  /** `canActivate`. On success the result is the payload that is attached to
      `request.user` (and the guard returns true). Failures:
      no usable token (no header, a first field other than "Bearer", no or an
      empty second field) gives 'Authorization token not provided'; a verified
      role outside the handler's roles gives 'Insufficient permissions', which
      the catch block rethrows unchanged; an expired token and a malformed one
      get their own messages; any other verification error propagates as is. */
  function CanActivate(authorization: Option<string>, verify: string -> Result<Claims>,
                       roles: Option<seq<Role>>): (r: Result<Claims>)
    ensures var token := ExtractTokenFromHeader(authorization);
      token.None? || token.value == "" ==> r == Err(Unauthorized(TOKEN_NOT_PROVIDED))
    ensures r.Ok? ==>
      var token := ExtractTokenFromHeader(authorization);
      && token.Some? && token.value != ""
      && verify(token.value) == Ok(r.value)
      && (roles.None? || r.value.role in roles.value)
    ensures var token := ExtractTokenFromHeader(authorization);
      token.Some? && token.value != "" ==>
      match verify(token.value)
      case Ok(p) =>
        if roles.None? || p.role in roles.value then r == Ok(p)
        else r == Err(Unauthorized(INSUFFICIENT_PERMISSIONS))
      case Err(e) =>
        if e.JsError? && e.name == "TokenExpiredError" then r == Err(Unauthorized(TOKEN_EXPIRED))
        else if e.JsError? && e.name == "JsonWebTokenError" then r == Err(Unauthorized(INVALID_TOKEN))
        else r == Err(e)
  {
    var token := ExtractTokenFromHeader(authorization);
    if token.None? || token.value == "" then
      Err(Unauthorized(TOKEN_NOT_PROVIDED))
    else
      match VerifyAndCheckRole(token.value, verify, roles)
      case Ok(payload) => Ok(payload)
      case Err(e) => Err(MapGuardError(e))
  }

  /** Without roles metadata the guard admits every verified token. */
  lemma NoRolesAdmitsAnyVerifiedToken(t: string, verify: string -> Result<Claims>)
    requires ' ' !in t && t != ""
    requires verify(t).Ok?
    ensures CanActivate(Some(BEARER_PREFIX + t), verify, None) == Ok(verify(t).value)
  {
    HeaderRoundTrip(t);
  }
}
