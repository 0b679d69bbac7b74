/** The mongoose `User` schema: every field a string that may be absent,
    except the identifier, the role (defaulting to "user") and the creation
    time (defaulting to the time the document is built). */
module UserModel {
  import opened Wrappers
  import opened Text

  datatype User = User(
    id: string,
    displayName: Option<string>,
    username: Option<string>,
    email: Option<string>,
    password: Option<string>,
    faculty: Option<string>,
    gender: Option<string>,
    studentId: Option<string>,
    role: string,
    createdAt: int)

  /** The object passed to `new User({...})`: `None` is a missing key. */
  datatype UserFields = UserFields(
    displayName: Option<string>,
    username: Option<string>,
    email: Option<string>,
    password: Option<string>,
    faculty: Option<string>,
    gender: Option<string>,
    studentId: Option<string>,
    role: Option<string>)

  function UserId(u: User): string
  {
    u.id
  }

  /** `new User(fields)`: the schema defaults fill in the role and the
      creation time; a missing `studentId` is `null` (the same `None`). */
  function NewUser(f: UserFields, id: string, now: int): (u: User)
    ensures f.role.None? ==> u.role == "user"
    ensures f.role.Some? ==> u.role == f.role.value
    ensures u.createdAt == now && u.id == id
    ensures u.studentId == f.studentId && u.password == f.password
    ensures u.username == f.username && u.email == f.email
    ensures u.displayName == f.displayName && u.faculty == f.faculty && u.gender == f.gender
  {
    User(id, f.displayName, f.username, f.email, f.password, f.faculty, f.gender,
         f.studentId, f.role.GetOr("user"), now)
  }

  /** `required: true` on a string: present and non-empty. */
  predicate ValidUser(u: User)
  {
    Truthy(u.username) && Truthy(u.email)
  }

  /** The unique indexes on `_id`, `username` and `email`. */
  ghost predicate UniqueKeys(users: seq<User>)
  {
    forall i, j :: 0 <= i < j < |users| ==>
      users[i].id != users[j].id &&
      users[i].username != users[j].username &&
      users[i].email != users[j].email
  }

  /** `save()` succeeds: the document validates and breaks no unique index. */
  predicate CanInsertUser(users: seq<User>, u: User)
  {
    ValidUser(u) &&
    forall i :: 0 <= i < |users| ==>
      users[i].id != u.id && users[i].username != u.username && users[i].email != u.email
  }

  lemma InsertKeepsUnique(users: seq<User>, u: User)
    requires UniqueKeys(users) && CanInsertUser(users, u)
    ensures UniqueKeys(users + [u])
  {
  }
}

/** The mongoose `Contact` schema: optional strings and a required
    `createdBy` reference to a user, which nothing checks. */
module ContactModel {
  import opened Wrappers

  /** A contact document; `None` is a field stored as `null`. */
  datatype Contact = Contact(
    id: string,
    name: Option<string>,
    faculty: Option<string>,
    role: Option<string>,
    department: Option<string>,
    email: Option<string>,
    phone: Option<string>,
    facebook: Option<string>,
    line: Option<string>,
    gender: Option<string>,
    profilePicture: Option<string>,
    createdBy: Option<string>)

  function ContactId(c: Contact): string
  {
    c.id
  }

  /** Only `createdBy` is required, and only to be present: it is not
      looked up among the users. */
  predicate ValidContact(c: Contact)
  {
    c.createdBy.Some?
  }

  predicate CanInsertContact(contacts: seq<Contact>, c: Contact)
  {
    ValidContact(c) && forall i :: 0 <= i < |contacts| ==> contacts[i].id != c.id
  }
}

/** The mongoose `Announcement` schema with `timestamps: true`. */
module AnnouncementModel {
  import opened Wrappers

  datatype Announcement = Announcement(
    id: string,
    title: string,
    content: string,
    coverImage: Option<string>,
    createdAt: int,
    updatedAt: int)

  function AnnouncementId(a: Announcement): string
  {
    a.id
  }

  /** `title` and `content` are required strings. */
  predicate ValidAnnouncement(a: Announcement)
  {
    a.title != "" && a.content != ""
  }

  predicate CanInsertAnnouncement(anns: seq<Announcement>, a: Announcement)
  {
    ValidAnnouncement(a) && forall i :: 0 <= i < |anns| ==> anns[i].id != a.id
  }
}
