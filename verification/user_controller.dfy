/** The routes of `user.controller.ts`: sign-up and sign-in are open, the two
    lookups are guarded. */
module UserController {
  import opened Results
  import opened UserSchema
  import opened AuthGuard
  import opened Routes
  import opened UserService

  /** One handler of the `user` controller, named by verb and path. */
  datatype UserRoute =
    | PostSignup        // POST /user/signup
    | PostSignin        // POST /user/signin
    | GetUser           // GET  /user/:userId
    | GetUsersByRole    // GET  /user?role=

  /** The `@UseGuards` / `@Roles` decorators of each handler. */
  function UserRouteAccess(route: UserRoute): Access
  {
    match route
    case PostSignup => Public
    case PostSignin => Public
    case GetUser => Guarded([Client, Expert, SuperAdmin])
    case GetUsersByRole => Guarded([SuperAdmin])
  }

  /** POST /user/signup. */
  function SignUpEndpoint(authorization: Option<string>, verify: string -> Result<Claims>,
                          users: map<Id, User>, dto: SignUpUserDto, newId: Id, hashed: string, now: int)
    : (r: Result<SignedUp>)
    requires newId !in users
    ensures r == SignUp(users, dto, newId, hashed, now)
  {
    Dispatch(UserRouteAccess(PostSignup), authorization, verify, SignUp(users, dto, newId, hashed, now))
  }

  /** POST /user/signin. */
  function SignInEndpoint(authorization: Option<string>, verify: string -> Result<Claims>,
                          users: map<Id, User>, dto: SigninUserDto,
                          compare: (string, string) -> bool, sign: Claims -> string)
    : (r: Result<string>)
    requires EmailsUnique(users)
    ensures r == SignIn(users, dto, compare, sign)
  {
    Dispatch(UserRouteAccess(PostSignin), authorization, verify, SignIn(users, dto, compare, sign))
  }

  /** Reading one user admits a verified token of any role; listing users by
      role admits a SuperAdmin token and nothing else. */
  lemma UserRouteRoles(authorization: Option<string>, verify: string -> Result<Claims>)
    ensures Authorize(UserRouteAccess(GetUser), authorization, verify).Ok?
            <==> VerifiedAs(authorization, verify, Client) || VerifiedAs(authorization, verify, Expert)
                 || VerifiedAs(authorization, verify, SuperAdmin)
    ensures Authorize(UserRouteAccess(GetUsersByRole), authorization, verify).Ok?
            <==> VerifiedAs(authorization, verify, SuperAdmin)
  {
  }

  /** The access token handed out at sign-in opens the guarded user routes
      when sent back as the Authorization header, provided the signer never
      emits an empty string or a space and the verifier accepts what the
      signer produced: reading a user always, listing users exactly for a
      SuperAdmin. The guard then attaches the signed claims. */
  lemma {:induction false} SignInTokenPassesGuard(users: map<Id, User>, dto: SigninUserDto,
                                                  compare: (string, string) -> bool, sign: Claims -> string,
                                                  verify: string -> Result<Claims>)
    requires EmailsUnique(users)
    requires SignIn(users, dto, compare, sign).Ok?
    requires forall c :: ' ' !in sign(c) && sign(c) != ""
    requires forall c :: verify(sign(c)) == Ok(c)
    ensures var header := Some(SignIn(users, dto, compare, sign).value);
      && Authorize(UserRouteAccess(GetUser), header, verify).Ok?
      && Authorize(UserRouteAccess(GetUser), header, verify).value.value.role == dto.role
      && Authorize(UserRouteAccess(GetUser), header, verify).value.value.email == dto.email
      && (Authorize(UserRouteAccess(GetUsersByRole), header, verify).Ok? <==> dto.role == SuperAdmin)
  {
    var id :| id in users && users[id].email == dto.email && users[id].role == dto.role
              && SignIn(users, dto, compare, sign).value == "Bearer " + sign(Claims(id, dto.email, dto.role));
    var jwt := sign(Claims(id, dto.email, dto.role));
    HeaderRoundTrip(jwt);
    assert ExtractTokenFromHeader(Some(SignIn(users, dto, compare, sign).value)) == Some(jwt);
  }
}
