/** `POST /api/auth/signup`: three guards in a fixed order (required fields,
    then an existing username or email, then the admin verification code),
    then a user record with a hashed password and a normalised role, saved
    before the reply message is built. */
module SignupRoute {
  import opened Wrappers
  import opened Text
  import opened UserModel
  import opened Db
  import opened Http

  /** The JSON body; `None` is a missing key. */
  datatype SignupBody = SignupBody(
    username: Option<string>,
    email: Option<string>,
    password: Option<string>,
    displayName: Option<string>,
    faculty: Option<string>,
    gender: Option<string>,
    studentId: Option<string>,
    role: Option<string>,
    verifyCode: Option<string>)

  const RequiredMessage := "Please fill all the required fields."
  const TakenMessage := "Username or Email already exists."
  const BadCodeMessage := "Invalid verification code for admin account."
  const ServerError := "Server error."
  const RegisteredSuffix := " registered successfully."

  predicate HasRequired(b: SignupBody)
  {
    Truthy(b.username) && Truthy(b.email) && Truthy(b.password)
  }

  /** `User.findOne({ $or: [{ username }, { email }] })` finds a user. */
  predicate Taken(users: seq<User>, username: string, email: string)
  {
    exists i :: 0 <= i < |users| && (users[i].username == Some(username) || users[i].email == Some(email))
  }

  /** `verifyCode && verifyCode === CREATE_ADMIN_VERIFY`; an unset secret
      accepts no code. */
  predicate CodeAccepted(code: Option<string>, secret: Option<string>)
  {
    Truthy(code) && code == secret
  }

  /** The guards in the handler's order; `None` lets the request through. */
  function Guard(users: seq<User>, b: SignupBody, secret: Option<string>): (r: Option<Response<string>>)
    ensures !HasRequired(b) ==> r == Some(Response(400, RequiredMessage))
    ensures HasRequired(b) && Taken(users, b.username.value, b.email.value) ==> r == Some(Response(400, TakenMessage))
    ensures (r.Some? && r.value.status == 403) <==>
      (HasRequired(b) && !Taken(users, b.username.value, b.email.value)
       && b.role == Some("admin") && !CodeAccepted(b.verifyCode, secret))
    ensures r.Some? ==> r.value.status == 400 || r.value == Response(403, BadCodeMessage)
    ensures r.None? <==>
      (HasRequired(b) && !Taken(users, b.username.value, b.email.value)
       && (b.role == Some("admin") ==> CodeAccepted(b.verifyCode, secret)))
  {
    if !HasRequired(b) then Some(Response(400, RequiredMessage))
    else if Taken(users, b.username.value, b.email.value) then Some(Response(400, TakenMessage))
    else if b.role == Some("admin") && !CodeAccepted(b.verifyCode, secret) then Some(Response(403, BadCodeMessage))
    else None
  }

  /** The stored user: `role === "admin" ? "admin" : "user"`,
      `studentId || null`, and the password replaced by its hash. */
  function NewRecord(b: SignupBody, hash: string -> string, id: string, now: int): (u: User)
    requires HasRequired(b)
    ensures ValidUser(u)
    ensures u.role == "admin" <==> b.role == Some("admin")
    ensures u.role == "admin" || u.role == "user"
    ensures u.studentId.None? <==> !Truthy(b.studentId)
    ensures u.studentId.Some? ==> u.studentId == b.studentId
    ensures u.password == Some(hash(b.password.value))
    ensures u.username == b.username && u.email == b.email && u.id == id
  {
    NewUser(UserFields(b.displayName, b.username, b.email, Some(hash(b.password.value)),
                       b.faculty, b.gender,
                       if Truthy(b.studentId) then b.studentId else None,
                       Some(if b.role == Some("admin") then "admin" else "user")),
            id, now)
  }

  /** A user that passed the guards can always be saved under a fresh id:
      the uniqueness guard already excludes what the unique indexes refuse. */
  lemma GuardedRecordSaves(users: seq<User>, b: SignupBody, secret: Option<string>,
                           hash: string -> string, id: string, now: int)
    requires Guard(users, b, secret).None?
    requires forall i :: 0 <= i < |users| ==> users[i].id != id
    ensures CanInsertUser(users, NewRecord(b, hash, id, now))
  {
    var u := NewRecord(b, hash, id, now);
    assert !Taken(users, b.username.value, b.email.value);
  }

  /** `${role.charAt(0).toUpperCase() + role.slice(1)} registered
      successfully.`; `None` when `role` is undefined and the expression
      throws. */
  function SuccessMessage(role: Option<string>): (m: Option<string>)
    ensures m.Some? <==> role.Some?
    ensures m.Some? ==>
      && |m.value| == |role.value| + |RegisteredSuffix|
      && m.value[|role.value|..] == RegisteredSuffix
      && m.value[..|role.value|] == Capitalize(role.value)
  {
    if role.None? then None else Some(Capitalize(role.value) + RegisteredSuffix)
  }

  /** The two messages the normalised roles give. */
  lemma AdminSuccessMessage()
    ensures SuccessMessage(Some("admin")) == Some("Admin" + RegisteredSuffix)
  {
    assert UpperChar('a') == 'A';
    assert Capitalize("admin") == "Admin";
  }

  lemma UserSuccessMessage()
    ensures SuccessMessage(Some("user")) == Some("User" + RegisteredSuffix)
  {
    assert UpperChar('u') == 'U';
    assert Capitalize("user") == "User";
  }

  /** The whole handler. `body` is `None` when `req.json()` throws;
      `CREATE_ADMIN_VERIFY` is `secret`, `bcrypt.hash` is `hash`, and the
      new document's id and creation time are `newId` and `now`. */
  method Post(users: UserCollection, body: Option<SignupBody>, secret: Option<string>,
              hash: string -> string, newId: string, now: int) returns (resp: Response<string>)
    requires users.Valid()
    modifies users
    ensures users.Valid()
    ensures body.None? ==> resp == Response(500, ServerError) && users.docs == old(users.docs)
    ensures body.Some? && Guard(old(users.docs), body.value, secret).Some? ==>
      resp == Guard(old(users.docs), body.value, secret).value && users.docs == old(users.docs)
    ensures body.Some? && Guard(old(users.docs), body.value, secret).None? ==>
      var u := NewRecord(body.value, hash, newId, now);
      var saved := CanInsertUser(old(users.docs), u);
      && users.docs == (if saved then old(users.docs) + [u] else old(users.docs))
      && resp == (if saved && body.value.role.Some?
                  then Response(201, SuccessMessage(body.value.role).value)
                  else Response(500, ServerError))
  {
    if body.None? {
      return Response(500, ServerError);
    }
    var b := body.value;
    var rejected := Guard(users.docs, b, secret);
    if rejected.Some? {
      return rejected.value;
    }
    var u := NewRecord(b, hash, newId, now);
    var saved := users.Save(u);
    if !saved {
      return Response(500, ServerError);
    }
    var message := SuccessMessage(b.role);
    if message.None? {
      // `role.charAt` throws after the user has been saved.
      return Response(500, ServerError);
    }
    resp := Response(201, message.value);
  }

  /** A signup with no `role` that passes the guards is stored, yet the
      reply is the 500 error. */
  lemma MissingRoleStoredButFails(users: seq<User>, b: SignupBody, secret: Option<string>,
                                  hash: string -> string, id: string, now: int)
    requires Guard(users, b, secret).None? && b.role.None?
    requires forall i :: 0 <= i < |users| ==> users[i].id != id
    ensures CanInsertUser(users, NewRecord(b, hash, id, now))
    ensures NewRecord(b, hash, id, now).role == "user"
    ensures SuccessMessage(b.role).None?
  {
    GuardedRecordSaves(users, b, secret, hash, id, now);
  }
}
