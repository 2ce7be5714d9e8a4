/**
  The authentication routes (api/auth_routes.py): the `token_required`
  decorator's reading of the `Authorization` header (the "Bearer" form of
  section 2.1 of RFC 6750), the validation order of `signup` and its insert
  into the `users` table, and the credential check of `login`. JWT decoding
  and encoding and bcrypt are oracles passed in: what `jwt.decode` gave or
  raised, the token `jwt.encode` produced, the stored hash and whether
  `check_password_hash` accepts a password.
 */
module AuthRoutes {
  import opened Common
  import opened Models

  const BearerPrefix: string := "Bearer "

  const TokenMalformed: Reply := Reply(401, "Token is missing or malformed!")
  const TokenExpired: Reply := Reply(401, "Token has expired! Please log in again.")
  const TokenInvalidPrefix: string := "Token is invalid: "
  /** `str(KeyError('user_id'))`, when the decoded claims lack `user_id`. */
  const MissingUserIdClaim: string := "'user_id'"
  const TokenUserUnknown: Reply := Reply(401, "Invalid user associated with token!")

  const CredentialsRequired: Reply := Reply(400, "Username and password are required")
  const CredentialsTooShort: Reply :=
    Reply(400, "Username must be at least 3 characters and password at least 8 characters")
  const UsernameTaken: Reply := Reply(409, "Username already exists")
  const NotAnEmployee: Reply := Reply(403, "You must be an employee to sign up")
  const AccountCreated: Reply := Reply(201, "Account created successfully")
  const InvalidCredentials: Reply := Reply(401, "Invalid credentials")

  const MinUsernameLength: int := 3
  const MinPasswordLength: int := 8

  /** What `jwt.decode` did with a token: raised `ExpiredSignatureError`,
      raised another exception (its message), or returned the claims, of
      which only `user_id` is read (`None` when the key is missing). */
  datatype Decoded = Expired | DecodeFailed(message: string) | Claims(userId: Option<int>)

  type Decoder = string -> Decoded

  /** The JSON body of `signup` and `login`: `None` for no body, and a
      missing key as `None`. */
  datatype Credentials = Credentials(username: Option<string>, password: Option<string>)

  /** The prefix of `s` before its first space. */
  function UpToSpace(s: string): (r: string)
    ensures r <= s && ' ' !in r
    ensures r == s || s[|r|] == ' '
    decreases |s|
  {
    if s == [] || s[0] == ' ' then [] else [s[0]] + UpToSpace(s[1..])
  }

  /** `header.startswith("Bearer ")` for a present, non-empty header. */
  predicate HasBearer(header: Option<string>) {
    !Falsy(header) && StartsWith(header.value, BearerPrefix)
  }

  /** `token.split(" ")[1]` for a header that starts with "Bearer ": the text
      between its first and its second space. */
  function TokenOf(header: string): (token: string)
    requires StartsWith(header, BearerPrefix)
    ensures ' ' !in token
    ensures BearerPrefix + token <= header
    ensures BearerPrefix + token == header || header[|BearerPrefix| + |token|] == ' '
  {
    var rest := header[|BearerPrefix|..];
    var token := UpToSpace(rest);
    assert header == BearerPrefix + rest;
    assert BearerPrefix + token == header[..|BearerPrefix| + |token|];
    token
  }

  /** "Bearer <token>" gives back the token, for any token without a space. */
  lemma {:induction false} TokenRoundTrip(token: string)
    requires ' ' !in token
    ensures StartsWith(BearerPrefix + token, BearerPrefix)
    ensures TokenOf(BearerPrefix + token) == token
  {
    var h := BearerPrefix + token;
    assert h[..|BearerPrefix|] == BearerPrefix;
    assert h[|BearerPrefix|..] == token;
    UpToSpaceWhole(token);
  }

  lemma {:induction false} UpToSpaceWhole(s: string)
    requires ' ' !in s
    ensures UpToSpace(s) == s
    decreases |s|
  {
    if s != [] {
      assert ' ' !in s[1..] by {
        forall k | 0 <= k < |s[1..]| ensures s[1..][k] != ' ' { assert s[1..][k] == s[k + 1]; }
      }
      UpToSpaceWhole(s[1..]);
    }
  }

  /** A second space right after "Bearer" leaves the empty token. */
  lemma DoubleSpaceGivesEmptyToken(rest: string)
    ensures StartsWith("Bearer  " + rest, BearerPrefix)
    ensures TokenOf("Bearer  " + rest) == ""
  {
    var h := "Bearer  " + rest;
    assert h[..|BearerPrefix|] == BearerPrefix;
    assert h[|BearerPrefix|..] == " " + rest;
  }

  /** The prefix is compared case-sensitively. */
  lemma LowerCaseSchemeRejected(token: string)
    ensures !HasBearer(Some("bearer " + token))
  {
    assert ("bearer " + token)[0] == 'b';
  }

  /** `User.query.get(id)`: the user with that primary key. */
  function UserById(users: seq<User>, id: int): (u: Option<User>)
    ensures u.None? <==> forall i :: 0 <= i < |users| ==> users[i].id != id
    ensures u.Some? ==> u.value.id == id && u.value in users
  {
    var k := IndexOfId(users, id, UserId);
    if k < 0 then None else Some(users[k])
  }

  /** The checks `token_required` makes before calling the route: the user
      the token names, or the 401 reply. */
  function Authenticate(header: Option<string>, decode: Decoder, users: seq<User>): (r: Result<User, Reply>)
    ensures r.Err? ==> r.error.status == 401
    ensures r.Ok? <==>
      && HasBearer(header)
      && decode(TokenOf(header.value)).Claims?
      && decode(TokenOf(header.value)).userId.Some?
      && UserById(users, decode(TokenOf(header.value)).userId.value).Some?
    ensures r.Ok? ==> r.value in users && Some(r.value.id) == decode(TokenOf(header.value)).userId
    ensures !HasBearer(header) ==> r == Err(TokenMalformed)
    ensures HasBearer(header) ==>
      var d := decode(TokenOf(header.value));
      && (d.Expired? ==> r == Err(TokenExpired))
      && (d.DecodeFailed? ==> r == Err(Reply(401, TokenInvalidPrefix + d.message)))
      && (d == Claims(None) ==> r == Err(Reply(401, TokenInvalidPrefix + MissingUserIdClaim)))
      && (d.Claims? && d.userId.Some? && UserById(users, d.userId.value).None? ==> r == Err(TokenUserUnknown))
  {
    if !HasBearer(header) then Err(TokenMalformed)
    else match decode(TokenOf(header.value))
      case Expired => Err(TokenExpired)
      case DecodeFailed(message) => Err(Reply(401, TokenInvalidPrefix + message))
      case Claims(None) => Err(Reply(401, TokenInvalidPrefix + MissingUserIdClaim))
      case Claims(Some(id)) =>
        match UserById(users, id)
        case None => Err(TokenUserUnknown)
        case Some(user) => Ok(user)
  }

  /** A route wrapped by `token_required`: the route runs, with the token's
      user, only when authentication succeeds; otherwise the reply is the
      decorator's 401. */
  function TokenRequired(header: Option<string>, decode: Decoder, users: seq<User>, route: User -> Reply)
    : (reply: Reply)
    ensures Authenticate(header, decode, users).Err? ==>
      reply == Authenticate(header, decode, users).error && reply.status == 401
    ensures Authenticate(header, decode, users).Ok? ==>
      exists u :: u in users && reply == route(u) && Some(u.id) == decode(TokenOf(header.value)).userId
  {
    match Authenticate(header, decode, users)
    case Err(e) => e
    case Ok(user) => route(user)
  }

  /** `not data or 'username' not in data or 'password' not in data`. */
  predicate MissingCredentials(body: Option<Credentials>) {
    body.None? || body.value.username.None? || body.value.password.None?
  }

  /** The checks of `signup` before the insert, in their order: the first
      that fails decides the reply; the accepted username and password. */
  function SignupCheck(body: Option<Credentials>, users: seq<User>, employees: seq<Employee>)
    : (r: Result<(string, string), Reply>)
    ensures r.Ok? <==>
      && !MissingCredentials(body)
      && |body.value.username.value| >= MinUsernameLength
      && |body.value.password.value| >= MinPasswordLength
      && FindUser(users, body.value.username.value).None?
      && EmployeeRole(employees, body.value.username.value).Some?
    ensures r.Ok? ==> r.value == (body.value.username.value, body.value.password.value)
    ensures MissingCredentials(body) ==> r == Err(CredentialsRequired)
    ensures !MissingCredentials(body) ==>
      var username, password := body.value.username.value, body.value.password.value;
      && (|username| < MinUsernameLength || |password| < MinPasswordLength ==> r == Err(CredentialsTooShort))
      && (|username| >= MinUsernameLength && |password| >= MinPasswordLength ==>
            && (FindUser(users, username).Some? ==> r == Err(UsernameTaken))
            && (FindUser(users, username).None? && EmployeeRole(employees, username).None? ==>
                  r == Err(NotAnEmployee)))
  {
    if MissingCredentials(body) then Err(CredentialsRequired)
    else
      var username, password := body.value.username.value, body.value.password.value;
      if |username| < MinUsernameLength || |password| < MinPasswordLength then Err(CredentialsTooShort)
      else if FindUser(users, username).Some? then Err(UsernameTaken)
      else if EmployeeRole(employees, username).None? then Err(NotAnEmployee)
      else Ok((username, password))
  }

  /** The length limits are inclusive: a 3-character username with an
      8-character password passes them, one character less fails. */
  lemma SignupLengthBoundary(username: string, password: string, users: seq<User>, employees: seq<Employee>)
    requires |username| == MinUsernameLength && |password| == MinPasswordLength
    ensures SignupCheck(Some(Credentials(Some(username), Some(password))), users, employees) != Err(CredentialsTooShort)
    ensures SignupCheck(Some(Credentials(Some(username[1..]), Some(password))), users, employees) == Err(CredentialsTooShort)
    ensures SignupCheck(Some(Credentials(Some(username), Some(password[1..]))), users, employees) == Err(CredentialsTooShort)
  {
  }

  predicate UsernamesUnique(users: seq<User>) {
    forall i, j :: 0 <= i < j < |users| ==> users[i].username != users[j].username
  }

  /** `POST /login` (a preflight `OPTIONS` request is not part of this
      model): the user's id and the token `encode` issues for it, or 400
      for a missing field and the same 401 whether the user is unknown or
      the password wrong. `checkPassword(hash, password)` is bcrypt's verdict. */
  function Login(body: Option<Credentials>, users: seq<User>, checkPassword: (string, string) -> bool,
                 encode: int -> string): (r: Result<(string, int), Reply>)
    ensures MissingCredentials(body) ==> r == Err(CredentialsRequired)
    ensures !MissingCredentials(body) ==>
      var user := FindUser(users, body.value.username.value);
      && (user.None? || !checkPassword(user.value.passwordHash, body.value.password.value) ==>
            r == Err(InvalidCredentials))
      && (user.Some? && checkPassword(user.value.passwordHash, body.value.password.value) ==>
            r == Ok((encode(user.value.id), user.value.id)))
    ensures r.Ok? ==> exists u :: u in users && u.username == body.value.username.value && r.value.1 == u.id
  {
    if MissingCredentials(body) then Err(CredentialsRequired)
    else
      var username, password := body.value.username.value, body.value.password.value;
      match FindUser(users, username)
      case None => Err(InvalidCredentials)
      case Some(user) =>
        if !checkPassword(user.passwordHash, password) then Err(InvalidCredentials)
        else Ok((encode(user.id), user.id))
  }

  /** An unknown user and a wrong password cannot be told apart by the reply. */
  lemma LoginFailuresAlike(name: string, password: string, users: seq<User>, user: User,
                           checkPassword: (string, string) -> bool, encode: int -> string)
    requires FindUser(users, name).None?
    requires user.username == name && !checkPassword(user.passwordHash, password)
    ensures Login(Some(Credentials(Some(name), Some(password))), users, checkPassword, encode)
         == Login(Some(Credentials(Some(name), Some(password))), [user] + users, checkPassword, encode)
  {
    assert ([user] + users)[0] == user;
  }

  class UserStore {
    var users: seq<User>
    var nextId: int

    ghost predicate Valid()
      reads this
    {
      && IdsUnique(users, UserId)
      && UsernamesUnique(users)
      && (forall i :: 0 <= i < |users| ==> users[i].id < nextId)
    }

    constructor ()
      ensures Valid() && users == []
    {
      users := [];
      nextId := 1;
    }

    /** `POST /signup`: after the checks, adds one user with the username,
        the bcrypt hash `passwordHash` of the password and the creation time
        `now`, and answers 201; `commitError` is the message of the exception
        the commit raises, if it does, and then the insert is rolled back and
        the answer is 500. Usernames stay unique. */
    method Signup(body: Option<Credentials>, employees: seq<Employee>, passwordHash: string, now: int,
                  commitError: Option<string>) returns (reply: Reply)
      requires Valid()
      modifies this
      ensures Valid()
      ensures var c := SignupCheck(body, old(users), employees);
        && (c.Err? ==> reply == c.error && users == old(users))
        && (c.Ok? && commitError.Some? ==>
              reply == Reply(500, DatabaseErrorPrefix + commitError.value) && users == old(users))
        && (c.Ok? && commitError.None? ==>
              reply == AccountCreated && users == old(users) + [User(old(nextId), c.value.0, passwordHash, now)])
    {
      var c := SignupCheck(body, users, employees);
      if c.Err? {
        return c.error;
      }
      if commitError.Some? {
        return Reply(500, DatabaseErrorPrefix + commitError.value);
      }
      var username := c.value.0;
      users := users + [User(nextId, username, passwordHash, now)];
      nextId := nextId + 1;
      reply := AccountCreated;
    }
  }
}
