/** The identity store of `user.service.ts`: sign-up, sign-in with an access
    token, and the two lookups. The user collection is a map from id to
    document; bcrypt and the JWT signer are opaque: `hashed` is what
    `bcrypt.hash` returned for this call, `compare` stands for `bcrypt.compare`
    and `sign` for `jwtService.sign`. */
module UserService {
  import opened Results
  import opened UserSchema
  import opened UserConverter

  datatype SignUpUserDto = SignUpUserDto(
    firstName: string,
    lastName: string,
    email: string,
    password: string,
    role: Role,
    subscription: string)

  datatype SigninUserDto = SigninUserDto(email: string, password: string, role: Role)

  /** The user collection after a sign-up, and the response body. */
  datatype SignedUp = SignedUp(users: map<Id, User>, message: string, statusCode: int)

  const SIGNED_UP := "User signed up successfully"
  const INVALID_CREDENTIALS := "Invalid credentials"
  const USER_NOT_FOUND := "User not found"

  /** The catch block of `signUp` for a failed save. A ValidationError with an
      entry on `email` becomes a DuplicateKeyException (400) carrying that
      entry's message. Without such an entry, reading
      `error.errors.email.message` itself throws a TypeError, which escapes. */
  function SignUpFailure(errors: map<string, string>): (f: Failure)
    ensures "email" in errors ==> f == BadRequest(errors["email"])
    ensures "email" !in errors ==> f.JsError? && f.name == "TypeError"
  {
    if "email" in errors then HttpException(BAD_REQUEST, errors["email"])
    else JsError("TypeError", "Cannot read properties of undefined (reading 'message')")
  }

  /** `signUp`: stores the DTO with the bcrypt hash in place of the plaintext
      password under a fresh id, or reports the failed validation. */
  function SignUp(users: map<Id, User>, dto: SignUpUserDto, newId: Id, hashed: string, now: int)
    : (r: Result<SignedUp>)
    requires newId !in users
    ensures r.Ok? <==>
      && dto.firstName != "" && dto.lastName != "" && dto.email != ""
      && hashed != "" && dto.subscription != "" && !EmailTaken(users, dto.email)
    ensures dto.email != "" && EmailTaken(users, dto.email) ==> r == Err(BadRequest(EMAIL_EXISTS))
    ensures r.Ok? ==>
      && r.value.users.Keys == users.Keys + {newId}
      && (forall id :: id in users ==> r.value.users[id] == users[id])
    ensures r.Ok? ==>
      var u := r.value.users[newId];
      && u.password == hashed
      && u.firstName == dto.firstName && u.lastName == dto.lastName && u.email == dto.email
      && u.role == dto.role && u.subscription == dto.subscription && u.createdAt == now
    ensures r.Ok? ==> r.value.message == SIGNED_UP && r.value.statusCode == CREATED
  {
    var u := NewUser(dto.firstName, dto.lastName, dto.email, hashed, dto.role, dto.subscription, now);
    var errors := ValidateNewUser(users, u);
    if errors == map[] then Ok(SignedUp(users[newId := u], SIGNED_UP, CREATED))
    else Err(SignUpFailure(errors))
  }

  /** A successful sign-up keeps the emails of the collection unique. */
  lemma SignUpKeepsEmailsUnique(users: map<Id, User>, dto: SignUpUserDto, newId: Id, hashed: string, now: int)
    requires EmailsUnique(users)
    requires newId !in users
    requires SignUp(users, dto, newId, hashed, now).Ok?
    ensures EmailsUnique(SignUp(users, dto, newId, hashed, now).value.users)
  {
    AddFreshEmailKeepsUnique(users, newId, NewUser(dto.firstName, dto.lastName, dto.email, hashed, dto.role, dto.subscription, now));
  }

  /** `findOne({ email, role })`: the user holding this email under this role.
      The unique email index makes the match, when there is one, unique. */
  function FindByEmailAndRole(users: map<Id, User>, email: string, role: Role): (found: Option<Id>)
    requires EmailsUnique(users)
    ensures found.Some? ==>
      found.value in users && users[found.value].email == email && users[found.value].role == role
    ensures found.None? ==>
      forall id :: id in users ==> !(users[id].email == email && users[id].role == role)
  {
    if exists id :: id in users && users[id].email == email && users[id].role == role then
      var id :| id in users && users[id].email == email && users[id].role == role;
      Some(id)
    else
      None
  }

  /** `generateAccessToken`: the bearer string handed out at sign-in. */
  function GenerateAccessToken(id: Id, u: User, sign: Claims -> string): string
  {
    "Bearer " + sign(Claims(id, u.email, u.role))
  }

  /** `signIn`: a user with this email AND this role whose hash matches the
      password gets `'Bearer ' + sign({ sub, email, role })`; a missing user and
      a wrong password both give 401 'Invalid credentials'. */
  function SignIn(users: map<Id, User>, dto: SigninUserDto,
                  compare: (string, string) -> bool, sign: Claims -> string): (r: Result<string>)
    requires EmailsUnique(users)
    ensures r.Err? ==> r.error == Unauthorized(INVALID_CREDENTIALS)
    ensures r.Ok? <==>
      exists id :: id in users && users[id].email == dto.email && users[id].role == dto.role
                   && compare(dto.password, users[id].password)
    ensures r.Ok? ==>
      exists id :: id in users && users[id].email == dto.email && users[id].role == dto.role
                   && r.value == "Bearer " + sign(Claims(id, dto.email, dto.role))
  {
    match FindByEmailAndRole(users, dto.email, dto.role)
    case None => Err(Unauthorized(INVALID_CREDENTIALS))
    case Some(id) =>
      if !compare(dto.password, users[id].password) then Err(Unauthorized(INVALID_CREDENTIALS))
      else Ok(GenerateAccessToken(id, users[id], sign))
  }

  /** A user who has just signed up can sign in with the same email, password
      and role, and the token names the new id. */
  lemma {:induction false} SignUpThenSignIn(users: map<Id, User>, dto: SignUpUserDto, newId: Id, hashed: string,
                                            now: int, compare: (string, string) -> bool, sign: Claims -> string)
    requires EmailsUnique(users)
    requires newId !in users
    requires SignUp(users, dto, newId, hashed, now).Ok?
    requires compare(dto.password, hashed)
    ensures
      var users' := SignUp(users, dto, newId, hashed, now).value.users;
      EmailsUnique(users') &&
      SignIn(users', SigninUserDto(dto.email, dto.password, dto.role), compare, sign)
        == Ok("Bearer " + sign(Claims(newId, dto.email, dto.role)))
  {
    var users' := SignUp(users, dto, newId, hashed, now).value.users;
    SignUpKeepsEmailsUnique(users, dto, newId, hashed, now);
    var found := FindByEmailAndRole(users', dto.email, dto.role);
    assert users'[newId].email == dto.email;
    assert found == Some(newId);
  }

  /** Signing in under another role than the one registered fails, however
      the password compares. */
  lemma SignInNeedsRegisteredRole(users: map<Id, User>, id: Id, password: string, role: Role,
                                  compare: (string, string) -> bool, sign: Claims -> string)
    requires EmailsUnique(users)
    requires id in users && users[id].role != role
    ensures SignIn(users, SigninUserDto(users[id].email, password, role), compare, sign)
            == Err(Unauthorized(INVALID_CREDENTIALS))
  {
  }

  /** `fetchParticularUserDetails`: the DTO of the stored user, or 404. */
  function FetchParticularUserDetails(users: map<Id, User>, userId: Id): (r: Result<UserResponse>)
    ensures r.Ok? <==> userId in users
    ensures r.Err? ==> r.error == NotFound(USER_NOT_FOUND)
    ensures r.Ok? ==>
      r.value.userId == userId && r.value.email == users[userId].email && r.value.role == users[userId].role
    ensures r.Ok? ==> r.value == ConvertUserToDto(userId, users[userId])
  {
    if userId in users then Ok(ConvertUserToDto(userId, users[userId]))
    else Err(NotFound(USER_NOT_FOUND))
  }

  /** `fetchUsersByType`: the DTOs of the users holding `role`, keyed by id. */
  function FetchUsersByType(users: map<Id, User>, role: Role): (dtos: map<Id, UserResponse>)
    ensures forall id :: id in dtos <==> id in users && users[id].role == role
    ensures forall id :: id in dtos ==> dtos[id].userId == id && dtos[id].role == role
    ensures forall id :: id in dtos ==> dtos[id] == ConvertUserToDto(id, users[id])
  {
    map id | id in users && users[id].role == role :: ConvertUserToDto(id, users[id])
  }

  /** Listing by role and fetching one user agree: every listed DTO is what the
      single-user lookup returns for its id. */
  lemma ListedUsersMatchDetails(users: map<Id, User>, role: Role, id: Id)
    requires id in FetchUsersByType(users, role)
    ensures FetchParticularUserDetails(users, id) == Ok(FetchUsersByType(users, role)[id])
  {
  }
}
