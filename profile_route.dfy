/** `GET` and `POST /api/profile`: list every user, and create a user from
    an administrator's form. Unlike signup, this handler stores the role as
    supplied and does not look for an existing username or email itself;
    the unique indexes refuse duplicates when the document is saved. */
module ProfileRoute {
  import opened Wrappers
  import opened Text
  import opened UserModel
  import opened Db
  import opened Http

  /** The JSON body; `None` is a missing key. */
  datatype ProfileBody = ProfileBody(
    displayName: Option<string>,
    username: Option<string>,
    email: Option<string>,
    password: Option<string>,
    faculty: Option<string>,
    gender: Option<string>,
    studentId: Option<string>,
    role: Option<string>)

  datatype Reply = Users(users: seq<User>) | Created(user: User) | Problem(message: string)

  const MissingFields := "Missing required fields"
  const CreateFailed := "Failed to create user"

  predicate HasRequired(b: ProfileBody)
  {
    Truthy(b.username) && Truthy(b.email) && Truthy(b.password) && Truthy(b.role)
  }

  /** `new User({...})` with the password replaced by its hash and every
      other field as supplied. */
  function NewRecord(b: ProfileBody, hash: string -> string, id: string, now: int): (u: User)
    requires HasRequired(b)
    ensures ValidUser(u)
    ensures u.role == b.role.value && u.studentId == b.studentId
    ensures u.password == Some(hash(b.password.value))
    ensures u.username == b.username && u.email == b.email && u.displayName == b.displayName
    ensures u.faculty == b.faculty && u.gender == b.gender
    ensures u.id == id && u.createdAt == now
  {
    NewUser(UserFields(b.displayName, b.username, b.email, Some(hash(b.password.value)),
                       b.faculty, b.gender, b.studentId, b.role),
            id, now)
  }

  /** `GET`: every stored user, in storage order. */
  method Get(users: UserCollection) returns (resp: Response<Reply>)
    ensures resp.status == 200 && resp.body.Users?
    ensures forall u :: u in resp.body.users <==> u in users.docs
    ensures |resp.body.users| == |users.docs|
  {
    resp := Response(200, Users(users.docs));
  }

  /** `POST`; `body` is `None` when `req.json()` throws. */
  method Post(users: UserCollection, body: Option<ProfileBody>, hash: string -> string,
              newId: string, now: int) returns (resp: Response<Reply>)
    requires users.Valid()
    modifies users
    ensures users.Valid()
    ensures body.None? ==> resp == Response(500, Problem(CreateFailed)) && users.docs == old(users.docs)
    ensures body.Some? && !HasRequired(body.value) ==>
      resp == Response(400, Problem(MissingFields)) && users.docs == old(users.docs)
    ensures body.Some? && HasRequired(body.value) ==>
      var u := NewRecord(body.value, hash, newId, now);
      if CanInsertUser(old(users.docs), u)
      then users.docs == old(users.docs) + [u] && resp == Response(201, Created(u))
      else users.docs == old(users.docs) && resp == Response(500, Problem(CreateFailed))
  {
    if body.None? {
      return Response(500, Problem(CreateFailed));
    }
    var b := body.value;
    if !HasRequired(b) {
      return Response(400, Problem(MissingFields));
    }
    var u := NewRecord(b, hash, newId, now);
    var saved := users.Save(u);
    if saved {
      resp := Response(201, Created(u));
    } else {
      resp := Response(500, Problem(CreateFailed));
    }
  }

  /** A username or email already stored makes the save, and so the
      request, fail. */
  lemma DuplicateRefused(users: seq<User>, b: ProfileBody, hash: string -> string, id: string, now: int)
    requires HasRequired(b)
    requires exists v :: v in users && (v.username == b.username || v.email == b.email)
    ensures !CanInsertUser(users, NewRecord(b, hash, id, now))
  {
    var v :| v in users && (v.username == b.username || v.email == b.email);
    var i :| 0 <= i < |users| && users[i] == v;
  }
}
