/** The profiles page. An administrator sees every user, five to a page and
    searched within the page, and creates or edits users; a user with role
    "user" sees and edits only their own profile. */
module ProfilePage {
  import opened Wrappers
  import opened Text
  import opened Sorting
  import opened ListOps
  import opened Paging
  import opened UserModel
  import ProfileRoute
  import AuthContext

  /** `newProfile`: the form, whose fields may be missing after it is
      filled from a stored user. */
  datatype ProfileFields = ProfileFields(
    displayName: Option<string>,
    username: Option<string>,
    email: Option<string>,
    faculty: Option<string>,
    gender: Option<string>,
    studentId: Option<string>,
    password: Option<string>,
    role: Option<string>)

  const EmptyForm := ProfileFields(Some(""), Some(""), Some(""), Some(""), Some(""),
                                   Some(""), Some(""), Some("user"))

  const RequiredMessage := "Display Name, Username, and Email are required."
  const SaveFailed := "Error saving profile. Please try again."
  const Saved := "Profile saved successfully."
  const DeleteFailed := "Failed to delete profile. Please try again."
  const Deleted := "Profile deleted successfully."
  const LoadFailed := "Failed to load profiles. Please try again later."

  /** `data.find(profile => profile._id === userId)`: a `null` user id
      matches nothing. */
  function FindById(users: seq<User>, userId: Option<string>): (r: Option<User>)
    ensures r.Some? ==> r.value in users && userId == Some(r.value.id)
    ensures r.None? <==> forall u :: u in users ==> userId != Some(u.id)
    decreases |users|
  {
    if users == [] then None
    else if userId == Some(users[0].id) then Some(users[0])
    else FindById(users[1..], userId)
  }

  /** `setNewProfile(userProfileData)`: the whole stored document, so the
      form's password is the stored hash. */
  function FormOfUser(u: User): (f: ProfileFields)
    ensures f.password == u.password && f.role == Some(u.role)
    ensures f.displayName == u.displayName && f.username == u.username && f.email == u.email
    ensures f.faculty == u.faculty && f.gender == u.gender && f.studentId == u.studentId
  {
    ProfileFields(u.displayName, u.username, u.email, u.faculty, u.gender, u.studentId,
                  u.password, Some(u.role))
  }

  /** `handleEditProfile`: the profile's fields, an empty password and the
      role it has. */
  function EditForm(u: User): (f: ProfileFields)
    ensures f.password == Some("") && f.role == Some(u.role)
    ensures f.displayName == u.displayName && f.username == u.username && f.email == u.email
    ensures f.faculty == u.faculty && f.gender == u.gender && f.studentId == u.studentId
  {
    ProfileFields(u.displayName, u.username, u.email, u.faculty, u.gender, u.studentId,
                  Some(""), Some(u.role))
  }

  predicate FormComplete(f: ProfileFields)
  {
    Truthy(f.displayName) && Truthy(f.username) && Truthy(f.email)
  }

  /** `JSON.stringify(newProfile)` as the server reads it: a missing field
      is a missing key. */
  function BodyOf(f: ProfileFields): ProfileRoute.ProfileBody
  {
    ProfileRoute.ProfileBody(f.displayName, f.username, f.email, f.password,
                             f.faculty, f.gender, f.studentId, f.role)
  }

  /** The page does not check the password: a form it lets through is
      accepted by the create handler exactly when it also has a password and
      a role. */
  lemma ServerGuardNeedsPassword(f: ProfileFields)
    requires FormComplete(f)
    ensures ProfileRoute.HasRequired(BodyOf(f)) <==> Truthy(f.password) && Truthy(f.role)
  {
  }

  /** `` `${userId}` `` in a URL: `null` prints as "null". */
  function IdText(userId: Option<string>): string
  {
    userId.GetOr("null")
  }

  datatype SaveRequest = SaveRequest(verb: string, url: string, body: ProfileRoute.ProfileBody)

  /** The request `handleSaveProfile` sends. */
  function RequestFor(f: ProfileFields, role: string, userId: Option<string>, editing: Option<User>): (r: SaveRequest)
    ensures r.verb == "PUT" <==> editing.Some? || role == "user"
    ensures r.verb == "PUT" || r.verb == "POST"
    ensures role == "user" ==> r.url == "/api/profile/" + IdText(userId)
    ensures role != "user" && editing.Some? ==> r.url == "/api/profile/" + editing.value.id
    ensures role != "user" && editing.None? ==> r.url == "/api/profile"
    ensures r.body == BodyOf(f)
  {
    SaveRequest(
      if editing.Some? || role == "user" then "PUT" else "POST",
      if role == "user" then "/api/profile/" + IdText(userId)
      else if editing.Some? then "/api/profile/" + editing.value.id
      else "/api/profile",
      BodyOf(f))
  }

  /** One search key: `profile[key]?.toLowerCase().includes(term)`; a
      missing field does not match. */
  function KeyMatches(x: Option<string>, term: string): (b: bool)
    ensures b ==> x.Some?
    ensures b <==> x.Some? && exists i :: OccursAt(Lower(x.value), Lower(term), i)
  {
    if x.None? then false
    else
      IncludesIff(Lower(x.value), Lower(term));
      Includes(Lower(x.value), Lower(term))
  }

  /** `["displayName", "username", "email"].some(...)`. */
  function ProfileMatches(term: string): User -> bool
  {
    (u: User) => KeyMatches(u.displayName, term) || KeyMatches(u.username, term) || KeyMatches(u.email, term)
  }

  /** The cards shown: the current five-profile slice of the whole list,
      then searched. */
  function VisibleProfiles(profiles: seq<User>, page: Page, term: string): seq<User>
  {
    Filter(PageSlice(profiles, page), ProfileMatches(term))
  }

  /** The search only narrows the current page: what is shown is a
      subsequence of that page's slice, holding exactly its matching
      profiles, and never more than five. */
  lemma VisibleWithinPage(profiles: seq<User>, page: Page, term: string)
    ensures IsSubsequence(VisibleProfiles(profiles, page, term), PageSlice(profiles, page))
    ensures |VisibleProfiles(profiles, page, term)| <= PerPage
    ensures forall u :: u in VisibleProfiles(profiles, page, term) <==>
              u in PageSlice(profiles, page) &&
              (KeyMatches(u.displayName, term) || KeyMatches(u.username, term) || KeyMatches(u.email, term))
  {
    FilterIsSubsequence(PageSlice(profiles, page), ProfileMatches(term));
  }

  class ProfilesPage {
    var role: string
    var userId: Option<string>
    var profiles: seq<User>
    var userProfile: Option<User>
    var form: Option<ProfileFields>
    var editing: Option<User>
    var error: string
    var success: string
    var searchTerm: string
    var currentPage: Page
    var inputPage: string

    /** The initial state; `role` and `userId` are what `useAuth()` gives on
        the first render, which on a full page load is the logged-out
        session, because the page's mount effect runs before the provider's. */
    constructor (role: string, userId: Option<string>)
      ensures this.role == role && this.userId == userId
      ensures profiles == [] && userProfile.None? && form == Some(EmptyForm) && editing.None?
      ensures error == "" && success == "" && searchTerm == "" && currentPage == 1 && inputPage == ""
    {
      this.role := role;
      this.userId := userId;
      profiles := [];
      userProfile := None;
      form := Some(EmptyForm);
      editing := None;
      error := "";
      success := "";
      searchTerm := "";
      currentPage := 1;
      inputPage := "";
    }

    /** A later render, after the provider changed the session: the handlers
        from then on see the new role and user id. */
    method SessionChanged(session: AuthContext.Session)
      modifies this`role, this`userId
      ensures role == session.role && userId == session.userId
    {
      role := session.role;
      userId := session.userId;
    }

    function CurrentProfiles(): (r: seq<User>)
      reads this
      ensures |r| <= PerPage
      ensures forall u :: u in r <==> u in PageSlice(profiles, currentPage) && ProfileMatches(searchTerm)(u)
    {
      VisibleProfiles(profiles, currentPage, searchTerm)
    }

    /** `fetchProfiles`; `response` is the parsed body, or `None` when the
        request fails. A "user" keeps only their own profile, which is also
        loaded into the form (left undefined when it is not found). */
    method Fetch(response: Option<seq<User>>)
      modifies this`profiles, this`userProfile, this`form, this`error
      ensures response.None? ==>
        && error == LoadFailed
        && profiles == old(profiles) && userProfile == old(userProfile) && form == old(form)
      ensures response.Some? && role == "user" ==>
        var own := FindById(response.value, userId);
        && userProfile == own
        && form == (if own.Some? then Some(FormOfUser(own.value)) else None)
        && profiles == old(profiles) && error == old(error)
      ensures response.Some? && role != "user" ==>
        && profiles == response.value
        && userProfile == old(userProfile) && form == old(form) && error == old(error)
    {
      if response.None? {
        error := LoadFailed;
        return;
      }
      if role == "user" {
        var own := FindById(response.value, userId);
        userProfile := own;
        form := if own.Some? then Some(FormOfUser(own.value)) else None;
      } else {
        profiles := response.value;
      }
    }

    method SetSearchTerm(term: string)
      modifies this`searchTerm
      ensures searchTerm == term
    {
      searchTerm := term;
    }

    /** `handleSaveProfile`. The request is returned, and `response` is the
        user the server sends back, or `None` when the request fails. With
        the form undefined, reading it throws before anything is done. */
    method Save(response: Option<User>) returns (request: Option<SaveRequest>)
      modifies this`profiles, this`userProfile, this`form, this`editing, this`error, this`success
      ensures old(form).None? ==>
        && request.None?
        && profiles == old(profiles) && userProfile == old(userProfile) && form == old(form)
        && editing == old(editing) && error == old(error) && success == old(success)
      ensures old(form).Some? && !FormComplete(old(form).value) ==>
        && request.None? && error == RequiredMessage
        && profiles == old(profiles) && userProfile == old(userProfile) && form == old(form)
        && editing == old(editing) && success == old(success)
      ensures old(form).Some? && FormComplete(old(form).value) ==>
        request == Some(RequestFor(old(form).value, role, userId, old(editing)))
      ensures old(form).Some? && FormComplete(old(form).value) && response.None? ==>
        && error == SaveFailed && success == ""
        && profiles == old(profiles) && userProfile == old(userProfile) && form == old(form)
        && editing == old(editing)
      ensures old(form).Some? && FormComplete(old(form).value) && response.Some? ==>
        && error == "" && success == Saved && editing.None?
        && profiles == AfterSave(old(profiles), old(editing).Some? || role == "user", response.value, UserId)
        && userProfile == (if role == "user" then response else old(userProfile))
        && form == (if role == "admin" then Some(EmptyForm) else old(form))
    {
      if form.None? {
        return None;
      }
      var f := form.value;
      if !FormComplete(f) {
        error := RequiredMessage;
        return None;
      }
      error := "";
      success := "";
      request := Some(RequestFor(f, role, userId, editing));
      if response.None? {
        error := SaveFailed;
        return;
      }
      profiles := AfterSave(profiles, editing.Some? || role == "user", response.value, UserId);
      if role == "user" {
        userProfile := response;
      }
      if role == "admin" {
        form := Some(EmptyForm);
      }
      editing := None;
      success := Saved;
    }

    /** `handleDeleteProfile(id)`; `ok` is whether the response was ok. */
    method Delete(id: string, ok: bool)
      modifies this`profiles, this`error, this`success
      ensures ok ==> profiles == RemoveById(old(profiles), id, UserId) && success == Deleted && error == old(error)
      ensures !ok ==> profiles == old(profiles) && success == old(success) && error == DeleteFailed
    {
      if !ok {
        error := DeleteFailed;
        return;
      }
      profiles := RemoveById(profiles, id, UserId);
      success := Deleted;
    }

    /** `handleEditProfile(profile)`. */
    method Edit(u: User)
      modifies this`editing, this`form
      ensures editing == Some(u) && form == Some(EditForm(u))
    {
      editing := Some(u);
      form := Some(EditForm(u));
    }

    method HandlePageInput(value: string, notNaN: bool)
      modifies this`inputPage
      ensures inputPage == PageInput(old(inputPage), value, notNaN)
    {
      inputPage := PageInput(inputPage, value, notNaN);
    }

    /** The page count is that of the whole list, not of the search. */
    method JumpToPage()
      modifies this`currentPage, this`error
      ensures var r := Paging.JumpToPage(inputPage, |profiles|, old(currentPage), old(error));
              currentPage == r.page && error == r.error
    {
      var r := Paging.JumpToPage(inputPage, |profiles|, currentPage, error);
      currentPage := r.page;
      error := r.error;
    }

    method NextPage()
      modifies this`currentPage
      ensures currentPage == Paging.NextPage(old(currentPage), |profiles|)
    {
      currentPage := Paging.NextPage(currentPage, |profiles|);
    }

    method PreviousPage()
      modifies this`currentPage
      ensures currentPage == Paging.PreviousPage(old(currentPage))
    {
      currentPage := Paging.PreviousPage(currentPage);
    }
  }
}
