/** The User document of `user.schema.ts`: its fields, the `required` rule on
    each of them, the email validator backed by a unique index, and the
    `createdAt` default. */
module UserSchema {
  import opened Results

  /** The values of the UserType enum. */
  datatype Role = Client | Expert | SuperAdmin

  /** A stored user. `password` holds the bcrypt hash, never the plaintext. */
  datatype User = User(
    firstName: string,
    lastName: string,
    email: string,
    password: string,
    role: Role,
    subscription: string,
    createdAt: int)

  /** The claims signed into an access token and handed back by the guard:
      `{ sub, email, role }`. */
  datatype Claims = Claims(sub: Id, email: string, role: Role)

  const EMAIL_EXISTS := "Email already exists"

  /** Mongoose's message for a `required` path left empty. */
  function RequiredMessage(path: string): string
  {
    "Path `" + path + "` is required."
  }

  /** Some stored user already has this email (the validator's `findOne({ email })`). */
  predicate EmailTaken(users: map<Id, User>, email: string)
  {
    exists id :: id in users && users[id].email == email
  }

  /** The unique index on `email`: no two stored users share an email. */
  predicate EmailsUnique(users: map<Id, User>)
  {
    forall a, b :: a in users && b in users && users[a].email == users[b].email ==> a == b
  }

  /** A user document as `new this.userModel(...)` builds it: `createdAt`
      defaults to the creation time. */
  function NewUser(firstName: string, lastName: string, email: string, password: string,
                   role: Role, subscription: string, now: int): (u: User)
    ensures u.createdAt == now
  {
    User(firstName, lastName, email, password, role, subscription, now)
  }

  /** The `errors` of the ValidationError that saving `u` into `users` raises,
      one message per failing path; the save succeeds when there is none. Every
      string field is `required` (Mongoose rejects the empty string), and on
      `email` the `required` check comes before the uniqueness validator. */
  function ValidateNewUser(users: map<Id, User>, u: User): (errors: map<string, string>)
    ensures errors == map[] <==>
      && u.firstName != "" && u.lastName != "" && u.email != ""
      && u.password != "" && u.subscription != ""
      && !EmailTaken(users, u.email)
    ensures "email" in errors <==> u.email == "" || EmailTaken(users, u.email)
    ensures u.email != "" && EmailTaken(users, u.email) ==> errors["email"] == EMAIL_EXISTS
    ensures "firstName" in errors <==> u.firstName == ""
    ensures "lastName" in errors <==> u.lastName == ""
    ensures "password" in errors <==> u.password == ""
    ensures "subscription" in errors <==> u.subscription == ""
  {
    var e1 := if u.firstName == "" then map["firstName" := RequiredMessage("firstName")] else map[];
    var e2 := if u.lastName == "" then e1["lastName" := RequiredMessage("lastName")] else e1;
    var e3 :=
      if u.email == "" then e2["email" := RequiredMessage("email")]
      else if EmailTaken(users, u.email) then e2["email" := EMAIL_EXISTS]
      else e2;
    var e4 := if u.password == "" then e3["password" := RequiredMessage("password")] else e3;
    var e5 := if u.subscription == "" then e4["subscription" := RequiredMessage("subscription")] else e4;
    assert u.firstName == "" ==> "firstName" in e5;
    assert u.lastName == "" ==> "lastName" in e5;
    assert u.email == "" || EmailTaken(users, u.email) ==> "email" in e5;
    assert u.password == "" ==> "password" in e5;
    e5
  }

  /** Adding a user whose email is not taken keeps emails unique. */
  lemma AddFreshEmailKeepsUnique(users: map<Id, User>, id: Id, u: User)
    requires EmailsUnique(users)
    requires !EmailTaken(users, u.email)
    requires id !in users
    ensures EmailsUnique(users[id := u])
  {
  }
}
