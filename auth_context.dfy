/** `AuthProvider`: the client's login session (logged in, role, user id),
    kept in React state and mirrored in the browser's `localStorage` so that
    it survives a reload. */
module AuthContext {
  import opened Wrappers

  /** `localStorage`: string keys to string values. */
  class Storage {
    var items: map<string, string>

    constructor (items: map<string, string>)
      ensures this.items == items
    {
      this.items := items;
    }
  }

  datatype Session = Session(isLoggedIn: bool, role: string, userId: Option<string>)

  /** The state before anything is restored, and after `logout`. */
  const LoggedOut := Session(false, "", None)

  const LoggedInKey := "isLoggedIn"
  const RoleKey := "role"
  const UserIdKey := "userId"

  /** `localStorage.getItem(key)`; `None` is `null`. */
  function GetItem(items: map<string, string>, key: string): Option<string>
  {
    if key in items then Some(items[key]) else None
  }

  /** What the mount effect makes of the stored items: a session when
      `isLoggedIn` is the string "true" (an absent or empty role reads as
      "", an absent or empty user id as `null`), otherwise the current state
      untouched. */
  function Restored(items: map<string, string>, current: Session): (s: Session)
    ensures s.isLoggedIn || s == current
    ensures s != current ==> GetItem(items, LoggedInKey) == Some("true")
    ensures GetItem(items, LoggedInKey) == Some("true") ==>
      && s.isLoggedIn
      && s.role == (if RoleKey in items then items[RoleKey] else "")
      && (s.userId.Some? <==> UserIdKey in items && items[UserIdKey] != "")
      && (s.userId.Some? ==> s.userId.value == items[UserIdKey])
  {
    if GetItem(items, LoggedInKey) == Some("true") then
      var role := GetItem(items, RoleKey);
      var userId := GetItem(items, UserIdKey);
      Session(true,
              if role.Some? && role.value != "" then role.value else "",
              if userId.Some? && userId.value != "" then userId else None)
    else current
  }

  /** The three `setItem` calls of `login`. */
  function Persisted(items: map<string, string>, role: string, userId: string): (r: map<string, string>)
    ensures r.Keys == items.Keys + {LoggedInKey, RoleKey, UserIdKey}
    ensures forall k :: k in items && k !in {LoggedInKey, RoleKey, UserIdKey} ==> r[k] == items[k]
  {
    items[LoggedInKey := "true"][RoleKey := role][UserIdKey := userId]
  }

  /** The three `removeItem` calls of `logout`. */
  function Cleared(items: map<string, string>): (r: map<string, string>)
    ensures r.Keys == items.Keys - {LoggedInKey, RoleKey, UserIdKey}
    ensures forall k :: k in r ==> r[k] == items[k]
  {
    items - {LoggedInKey, RoleKey, UserIdKey}
  }

  /** A reload after `login` restores the session `login` set, except that
      an empty user id comes back as `null`. */
  lemma RestoreAfterLogin(items: map<string, string>, role: string, userId: string, current: Session)
    ensures Restored(Persisted(items, role, userId), current)
         == Session(true, role, if userId == "" then None else Some(userId))
  {
    var p := Persisted(items, role, userId);
    assert GetItem(p, LoggedInKey) == Some("true");
    assert GetItem(p, RoleKey) == Some(role);
    assert GetItem(p, UserIdKey) == Some(userId);
  }

  /** A reload after `logout` restores nothing. */
  lemma RestoreAfterLogout(items: map<string, string>, current: Session)
    ensures Restored(Cleared(items), current) == current
  {
    assert LoggedInKey !in Cleared(items);
  }

  class AuthProvider {
    var isLoggedIn: bool
    var role: string
    var userId: Option<string>
    var loading: bool
    const storage: Storage

    function Current(): Session
      reads this
    {
      Session(isLoggedIn, role, userId)
    }

    /** The initial React state: logged out and loading. */
    constructor (storage: Storage)
      ensures Current() == LoggedOut && loading
      ensures this.storage == storage
    {
      isLoggedIn := false;
      role := "";
      userId := None;
      loading := true;
      this.storage := storage;
    }

    /** The mount effect: restore from storage, then stop loading. */
    method Restore()
      modifies this
      ensures Current() == Restored(storage.items, old(Current()))
      ensures !loading
    {
      var loggedIn := GetItem(storage.items, LoggedInKey);
      if loggedIn == Some("true") {
        var storedRole := GetItem(storage.items, RoleKey);
        var storedUserId := GetItem(storage.items, UserIdKey);
        isLoggedIn := true;
        role := if storedRole.Some? && storedRole.value != "" then storedRole.value else "";
        userId := if storedUserId.Some? && storedUserId.value != "" then storedUserId else None;
      }
      loading := false;
    }

    /** `login({ role, userId })`. */
    method Login(role: string, userId: string)
      modifies this, storage
      ensures Current() == Session(true, role, Some(userId))
      ensures storage.items == Persisted(old(storage.items), role, userId)
      ensures loading == old(loading)
    {
      isLoggedIn := true;
      this.role := role;
      this.userId := Some(userId);
      storage.items := storage.items[LoggedInKey := "true"];
      storage.items := storage.items[RoleKey := role];
      storage.items := storage.items[UserIdKey := userId];
    }

    /** `logout()`. */
    method Logout()
      modifies this, storage
      ensures Current() == LoggedOut
      ensures storage.items == Cleared(old(storage.items))
      ensures loading == old(loading)
    {
      isLoggedIn := false;
      role := "";
      userId := None;
      storage.items := storage.items - {LoggedInKey, RoleKey, UserIdKey};
    }
  }
}
