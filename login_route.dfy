/** `POST /api/auth/login`: look the user up by username, compare the
    password with the stored hash, and sign a token carrying the user's id
    and role. */
module LoginRoute {
  import opened Wrappers
  import opened UserModel
  import opened Http
  import opened Tokens
  import opened Text

  /** The JSON body; a missing `password` is `None`. */
  datatype LoginBody = LoginBody(username: string, password: Option<string>)

  /** Why the handler's `catch` ran. */
  datatype Failure =
    | MalformedBody      // `req.json()` throws
    | IllegalArguments   // `bcrypt.compare` is given an undefined password or hash
    | MissingSecret      // `jwt.sign` is given an undefined or empty `JWT_SECRET`

  /** The three reply bodies. */
  datatype Reply =
    | LoggedIn(token: string, role: string, userId: string)   // success: true, "Login successful"
    | InvalidCredentials                                       // success: false, "Invalid credentials"
    | LoginError(failure: Failure)                             // success: false, "An error occurred during login"

  function Message(r: Reply): string
  {
    match r
    case LoggedIn(_, _, _) => "Login successful"
    case InvalidCredentials => "Invalid credentials"
    case LoginError(_) => "An error occurred during login"
  }

  /** `User.findOne({ username })`: the first stored user with that
      username. */
  function FindByUsername(users: seq<User>, username: string): (r: Option<User>)
    ensures r.Some? ==> r.value in users && r.value.username == Some(username)
    ensures r.None? <==> forall u :: u in users ==> u.username != Some(username)
    decreases |users|
  {
    if users == [] then None
    else if users[0].username == Some(username) then Some(users[0])
    else FindByUsername(users[1..], username)
  }

  /** The handler; `compare` is `bcrypt.compare`, `sign` is `jwt.sign` and
      `secret` is `JWT_SECRET`. */
  function Login(users: seq<User>, body: Option<LoginBody>, compare: (string, string) -> bool,
                 sign: (Claims, string) -> string, secret: Option<string>): (r: Response<Reply>)
    ensures r.status == 200 <==> r.body.LoggedIn?
    ensures r.status == 401 <==> r.body == InvalidCredentials
    ensures r.status == 500 <==> r.body.LoginError?
    ensures r.body.LoggedIn? ==>
      && body.Some?
      && var u := FindByUsername(users, body.value.username);
      && u.Some? && body.value.password.Some? && u.value.password.Some?
      && compare(body.value.password.value, u.value.password.value)
      && Truthy(secret)
      && r.body == LoggedIn(sign(Claims(u.value.id, u.value.role), secret.value), u.value.role, u.value.id)
    ensures r.body == InvalidCredentials <==>
      && body.Some?
      && var u := FindByUsername(users, body.value.username);
      && (u.None? || (body.value.password.Some? && u.value.password.Some?
                      && !compare(body.value.password.value, u.value.password.value)))
    ensures body.Some? ==>
      var u := FindByUsername(users, body.value.username);
      (u.Some? && body.value.password.Some? && u.value.password.Some?
       && compare(body.value.password.value, u.value.password.value) && Truthy(secret))
      ==> r.status == 200
  {
    if body.None? then Response(500, LoginError(MalformedBody))
    else
      var b := body.value;
      var user := FindByUsername(users, b.username);
      if user.None? then Response(401, InvalidCredentials)
      else if b.password.None? || user.value.password.None? then Response(500, LoginError(IllegalArguments))
      else if !compare(b.password.value, user.value.password.value) then Response(401, InvalidCredentials)
      else if !Truthy(secret) then Response(500, LoginError(MissingSecret))
      else
        var u := user.value;
        Response(200, LoggedIn(sign(Claims(u.id, u.role), secret.value), u.role, u.id))
  }

  /** Whoever signed up with a username and password can log in with them,
      when `compare` accepts a password against its own hash. */
  lemma LoginAfterSignup(users: seq<User>, u: User, pw: string, hash: string -> string,
                         compare: (string, string) -> bool, sign: (Claims, string) -> string, secret: string)
    requires u in users && u.username.Some? && u.password == Some(hash(pw))
    requires UniqueKeys(users)
    requires compare(pw, hash(pw))
    requires secret != ""
    ensures Login(users, Some(LoginBody(u.username.value, Some(pw))), compare, sign, Some(secret))
         == Response(200, LoggedIn(sign(Claims(u.id, u.role), secret), u.role, u.id))
  {
    var found := FindByUsername(users, u.username.value);
    var i :| 0 <= i < |users| && users[i] == u;
    var j :| 0 <= j < |users| && users[j] == found.value;
  }
}
