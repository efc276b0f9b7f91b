/**
 * The account routes: registration and login as ordered guard chains over
 * a table of users, and the profile of the signed-in user. Password
 * hashing is an input (the hash of the submitted password) and password
 * checking an opaque predicate; a token is the payload that gets signed.
 */
module Auth {
  import opened JsValues

  /** A stored account. */
  datatype User = User(
    id: int,
    username: string,
    email: string,
    passwordHash: string,
    displayName: string,
    role: string,
    specialization: string)

  /** The claims signed into a token: `{ userId, username, displayName, role }`. */
  datatype Token = Token(userId: int, username: string, displayName: string, role: string)

  /** The user object returned by register and login; it has no password hash. */
  datatype PublicUser = PublicUser(id: int, username: string, displayName: string, role: string, email: string)

  /** The body of `GET /api/auth/me`; it adds the specialization and still has no password hash. */
  datatype Profile = Profile(id: int, username: string, displayName: string, role: string,
                             email: string, specialization: string)

  datatype Session = Session(token: Token, user: PublicUser)

  /** An error status with its message, or a success status with the session. */
  datatype AuthReply = Failed(status: int, error: string) | Signed(status: int, session: Session)

  function TokenFor(u: User): Token {
    Token(u.id, u.username, u.displayName, u.role)
  }

  function PublicFor(u: User): PublicUser {
    PublicUser(u.id, u.username, u.displayName, u.role, u.email)
  }

  function SessionFor(u: User): (r: Session)
    ensures r.token.userId == r.user.id == u.id
    ensures r.token.username == r.user.username == u.username
    ensures r.token.displayName == r.user.displayName == u.displayName
    ensures r.token.role == r.user.role == u.role && r.user.email == u.email
  {
    Session(TokenFor(u), PublicFor(u))
  }

  /** What register and login return does not depend on the stored password hash. */
  lemma SessionIgnoresHash(u: User, h: string)
    ensures SessionFor(u.(passwordHash := h)) == SessionFor(u)
  {
  }

  // ----------------------------------------------------------- lookups

  /** `getUserByUsername`: the first user with that name. */
  function FindByUsername(users: seq<User>, username: string): (r: Option<User>)
    ensures r.None? <==> forall u :: u in users ==> u.username != username
    ensures r.Some? ==> r.value in users && r.value.username == username
    ensures r.Some? ==> exists i :: 0 <= i < |users| && users[i] == r.value && forall j :: 0 <= j < i ==> users[j].username != username
  {
    Find(users, (u: User) => u.username == username)
  }

  /** `getUserByEmail`: the first user with that address. */
  function FindByEmail(users: seq<User>, email: string): (r: Option<User>)
    ensures r.None? <==> forall u :: u in users ==> u.email != email
    ensures r.Some? ==> r.value in users && r.value.email == email
    ensures r.Some? ==> exists i :: 0 <= i < |users| && users[i] == r.value && forall j :: 0 <= j < i ==> users[j].email != email
  {
    Find(users, (u: User) => u.email == email)
  }

  /** `getUserById`: the first user with that ID. */
  function FindById(users: seq<User>, id: int): (r: Option<User>)
    ensures r.None? <==> forall u :: u in users ==> u.id != id
    ensures r.Some? ==> r.value in users && r.value.id == id
    ensures r.Some? ==> exists i :: 0 <= i < |users| && users[i] == r.value && forall j :: 0 <= j < i ==> users[j].id != id
  {
    Find(users, (u: User) => u.id == id)
  }

  // ---------------------------------------------------------- register

  datatype RegisterBody = RegisterBody(
    username: Option<string>,
    email: Option<string>,
    password: Option<string>,
    displayName: Option<string>,
    role: Option<string>,
    specialization: Option<string>)

  const MissingFields := Failed(400, "Username, email, and password are required")
  const ShortPassword := Failed(400, "Password must be at least 6 characters")
  const UsernameTaken := Failed(409, "Username already exists")
  const EmailTaken := Failed(409, "Email already registered")

  /** The three required fields are all present and non-empty. */
  predicate HasCredentials(body: RegisterBody) {
    Truthy(body.username) && Truthy(body.email) && Truthy(body.password)
  }

  /**
   * The guards of `POST /api/auth/register`, in order: missing fields, a
   * password under 6 characters, a taken username, a taken email. `None`
   * means every guard passed.
   */
  function RegisterCheck(users: seq<User>, body: RegisterBody): (r: Option<AuthReply>)
    ensures !HasCredentials(body) ==> r == Some(MissingFields)
    ensures HasCredentials(body) && |body.password.value| < 6 ==> r == Some(ShortPassword)
    ensures HasCredentials(body) && |body.password.value| >= 6 ==>
      (r == Some(UsernameTaken) <==> exists u :: u in users && u.username == body.username.value)
    ensures (HasCredentials(body) && |body.password.value| >= 6
             && forall u :: u in users ==> u.username != body.username.value) ==>
      (r == Some(EmailTaken) <==> exists u :: u in users && u.email == body.email.value)
    ensures r.None? <==>
      && HasCredentials(body) && |body.password.value| >= 6
      && (forall u :: u in users ==> u.username != body.username.value && u.email != body.email.value)
  {
    if !HasCredentials(body) then Some(MissingFields)
    else if |body.password.value| < 6 then Some(ShortPassword)
    else if FindByUsername(users, body.username.value).Some? then Some(UsernameTaken)
    else if FindByEmail(users, body.email.value).Some? then Some(EmailTaken)
    else None
  }

  /** The record `createUser` receives, with the optional fields defaulted. */
  function NewUser(id: int, body: RegisterBody, passwordHash: string): (r: User)
    requires HasCredentials(body)
    ensures r.id == id && r.username == body.username.value && r.email == body.email.value
    ensures r.passwordHash == passwordHash
    ensures Truthy(body.displayName) ==> r.displayName == body.displayName.value
    ensures !Truthy(body.displayName) ==> r.displayName == body.username.value
    ensures Truthy(body.role) ==> r.role == body.role.value
    ensures !Truthy(body.role) ==> r.role == "resident"
    ensures Truthy(body.specialization) ==> r.specialization == body.specialization.value
    ensures !Truthy(body.specialization) ==> r.specialization == "neurosurgery"
  {
    User(id, body.username.value, body.email.value, passwordHash,
         OrDefault(body.displayName, body.username.value),
         OrDefault(body.role, "resident"),
         OrDefault(body.specialization, "neurosurgery"))
  }

  // ------------------------------------------------------------- login

  datatype LoginBody = LoginBody(username: Option<string>, password: Option<string>)

  const LoginMissing := Failed(400, "Username and password are required")
  const BadCredentials := Failed(401, "Invalid username or password")

  /**
   * `POST /api/auth/login`. `matches(password, hash)` stands for the
   * password check. An unknown username and a wrong password give the
   * same reply, so a caller cannot tell which one failed.
   */
  function Login(users: seq<User>, body: LoginBody, matches: (string, string) -> bool): (r: AuthReply)
    ensures r == LoginMissing || r == BadCredentials || (r.Signed? && r.status == 200)
    ensures !Truthy(body.username) || !Truthy(body.password) ==> r == LoginMissing
    ensures Truthy(body.username) && Truthy(body.password)
            && FindByUsername(users, body.username.value).Some?
            && matches(body.password.value, FindByUsername(users, body.username.value).value.passwordHash) ==>
      r == Signed(200, SessionFor(FindByUsername(users, body.username.value).value))
    ensures Truthy(body.username) && Truthy(body.password) ==>
      (r == BadCredentials <==>
        || (forall u :: u in users ==> u.username != body.username.value)
        || !matches(body.password.value, FindByUsername(users, body.username.value).value.passwordHash))
    ensures r.Signed? ==>
      && Truthy(body.username) && Truthy(body.password)
      && exists u :: u in users && u.username == body.username.value
           && matches(body.password.value, u.passwordHash)
           && r == Signed(200, SessionFor(u))
  {
    if !Truthy(body.username) || !Truthy(body.password) then LoginMissing
    else
      var user := FindByUsername(users, body.username.value);
      if user.None? then BadCredentials
      else if !matches(body.password.value, user.value.passwordHash) then BadCredentials
      else Signed(200, SessionFor(user.value))
  }

  // ---------------------------------------------------------------- me

  datatype MeReply = MeFailed(status: int, error: string) | MeFound(profile: Profile)

  function ProfileFor(u: User): Profile {
    Profile(u.id, u.username, u.displayName, u.role, u.email, u.specialization)
  }

  /** `GET /api/auth/me` for the user ID carried by a verified token. */
  function Me(users: seq<User>, userId: int): (r: MeReply)
    ensures r.MeFailed? <==> forall u :: u in users ==> u.id != userId
    ensures r.MeFailed? ==> r == MeFailed(404, "User not found")
    ensures r.MeFound? ==> exists u :: u in users && u.id == userId && r.profile == ProfileFor(u)
  {
    var user := FindById(users, userId);
    if user.None? then MeFailed(404, "User not found") else MeFound(ProfileFor(user.value))
  }

  // ------------------------------------------------------- user table

  /** No two users share an ID, a username or an email, and every ID is below the next one to issue. */
  ghost predicate ValidTable(users: seq<User>, nextUserId: int) {
    && (forall i, j :: 0 <= i < j < |users| ==>
          users[i].id != users[j].id && users[i].username != users[j].username && users[i].email != users[j].email)
    && forall i :: 0 <= i < |users| ==> users[i].id < nextUserId
  }

  /**
   * Appending a user with the next ID and an unused username and email
   * keeps the table valid, and looking the new ID up finds that user.
   */
  lemma AppendNewUser(users: seq<User>, nextUserId: int, created: User)
    requires ValidTable(users, nextUserId) && created.id == nextUserId
    requires forall u :: u in users ==> u.username != created.username && u.email != created.email
    ensures ValidTable(users + [created], nextUserId + 1)
    ensures FindById(users + [created], nextUserId) == Some(created)
  {
    var t := users + [created];
    assert forall i :: 0 <= i < |users| ==> t[i] == users[i] && users[i] in users;
    var r := FindById(t, nextUserId);
    assert created in t;
    var k :| 0 <= k < |t| && t[k] == r.value;
    assert k == |users|;
  }

  /**
   * The user table behind `createUser` and `getUserById`: the users in
   * creation order and the next ID to issue.
   */
  class UserTable {
    var users: seq<User>
    var nextUserId: int

    ghost predicate Valid()
      reads this
    {
      ValidTable(users, nextUserId)
    }

    constructor()
      ensures users == [] && nextUserId == 1
      ensures Valid()
    {
      users := [];
      nextUserId := 1;
    }

    /**
     * `POST /api/auth/register`. `passwordHash` is the hash of the
     * submitted password. A failed guard changes nothing; otherwise the new
     * user is appended, found again by its ID and returned with status 201.
     */
    method Register(body: RegisterBody, passwordHash: string) returns (reply: AuthReply)
      modifies this
      ensures RegisterCheck(old(users), body).Some? ==>
        && reply == RegisterCheck(old(users), body).value
        && users == old(users) && nextUserId == old(nextUserId)
      ensures RegisterCheck(old(users), body).None? ==>
        && users == old(users) + [NewUser(old(nextUserId), body, passwordHash)]
        && nextUserId == old(nextUserId) + 1
        && reply == Signed(201, SessionFor(FindById(users, old(nextUserId)).value))
      ensures RegisterCheck(old(users), body).None? && old(Valid()) ==>
        reply == Signed(201, SessionFor(NewUser(old(nextUserId), body, passwordHash)))
      ensures old(Valid()) ==> Valid()
    {
      ghost var wasValid := Valid();
      var failure := RegisterCheck(users, body);
      if failure.Some? {
        return failure.value;
      }
      var userId := nextUserId;
      var created := NewUser(userId, body, passwordHash);
      if wasValid {
        AppendNewUser(users, userId, created);
      }
      users := users + [created];
      nextUserId := nextUserId + 1;
      var user := FindById(users, userId);
      assert user.Some? by {
        assert created in users;
      }
      reply := Signed(201, SessionFor(user.value));
    }
  }
}
