# AU Connect — a Dafny model of its core

AU Connect is a Next.js application for a university community. It has
accounts (sign-up, login, a JWT bearer check), profiles, a contact directory
and announcements. Data is stored in MongoDB through Mongoose models, and
uploaded pictures are written to `public/uploads`. This project models:

- the server side: the sign-up, login, profile, contacts and announcement
  API routes (their guards, records, status codes and messages), the
  bearer-token middleware, the `check-auth` stub and the three Mongoose
  models;
- the client side: the `AuthProvider` session kept in `localStorage`, and the
  three list pages (announcements on the home page, contacts, profiles) with
  their filter, sort, five-per-page slicing, page jumping, save and delete.

Modules:

- `Text`: the string operations the code relies on: `toLowerCase`, `includes`,
  `<`, `split`, `parseInt`, capitalising the first letter.
- `Sorting`: a stable sort, standing for `Array.prototype.sort`, and `filter`.
- `Ordering`: string-key comparators.
- `ListOps`: the replace-by-`_id`, prepend and remove-by-`_id` list updates.
- `Paging`: `totalPages`, the page slice, `jumpToPage` and next/previous.
- `UserModel`, `ContactModel`, `AnnouncementModel` and `Db`: the schemas, and
  collections that enforce the schemas' required and unique fields on `save`.
- `Http`: uploads and the upload file name `<Date.now()>-<original name>`.
- `Tokens`: JWT claims.
- One module per route or page: `SignupRoute`, `LoginRoute`, `ProfileRoute`,
  `ContactsRoute`, `AnnouncementRoute`, `AuthMiddleware`, `CheckAuth`,
  `AuthContext`, `ContactsPage`, `HomePage` and `ProfilePage`.

Parts of the system are parameters to the model rather than modelled:
- the clock (`Date.now()`);
- the new document ids;
- bcrypt's `hash` and `compare`;
- jwt's `sign` and `verify`;
- the `CREATE_ADMIN_VERIFY` and `JWT_SECRET` environment values;
- the outcome of every `fetch` on the pages, where `None` stands for a
  response that is not ok or a request that throws.

The pages' state lives in classes whose methods update their fields. Each
method is specified against the pure functions, which the lemmas reason about.

## Model

| member | source | states |
|---|---|---|
| Text.Capitalize | src/app/api/auth/signup/route.js:64 | keeps the length; the first character is upper-cased and the rest is unchanged |
| Text.IncludesIff | src/app/contacts/page.js:139-144 | `includes(t)` holds exactly when `t` occurs at some index of `s` |
| Text.IncludesTrivial | src/app/page.js:75-79 | every string includes "" and itself |
| Text.LessIrreflexive | src/app/contacts/page.js:148-151 | string `<` is irreflexive |
| Text.LessTrichotomy | src/app/contacts/page.js:148-151 | for any two strings exactly one of equal, `a < b`, `b < a` holds |
| Text.LessTransitive | src/app/contacts/page.js:148-151 | string `<` is transitive |
| Text.NatToString | src/app/contacts/page.js:172-181 | the decimal text of a number is a non-empty digit string |
| Text.DigitsValueOfNat | src/app/contacts/page.js:172-181 | reading a number's decimal text gives the number back |
| Text.TrimStart | src/app/contacts/page.js:173 | removes exactly the leading white space: tab, the line terminators, vertical tab, form feed, the byte order mark and every Zs space (U+0020, U+00A0, U+1680, U+2000–U+200A, U+202F, U+205F, U+3000) |
| Text.DigitPrefix | src/app/contacts/page.js:173 | the longest prefix that is all digits |
| Text.ParseIntNatToString | src/app/contacts/page.js:173 | `parseInt` of a typed page number yields that number |
| Text.TrimStartWhiteSpace | src/app/contacts/page.js:173 | white space in front of a string does not change what is left after trimming |
| Text.ParseIntSkipsWhiteSpace | src/app/contacts/page.js:173 | `parseInt` of white space, such as U+3000, followed by a page number yields that number |
| Text.Split | src/app/middleware/auth.js:12 | `split` always yields at least one part |
| Text.JoinSplit | src/app/middleware/auth.js:12 | joining the parts of `split` with the separator restores the string |
| Text.SplitSegments | src/app/middleware/auth.js:12 | no part of `split` contains the separator |
| Text.SplitNoSeparator | src/app/middleware/auth.js:12 | a string without the separator splits into itself alone |
| Text.SplitAtFirstSeparator | src/app/middleware/auth.js:12 | splitting `a + sep + b` gives `a` followed by the parts of `b` |
| Sorting.Filter | src/app/contacts/page.js:137-145 | an element is in the result iff it is in the input and satisfies the predicate; never longer |
| Sorting.FilterIsSubsequence | src/app/contacts/page.js:137-145 | `filter` keeps the input's order |
| Sorting.FilterAll | src/app/contacts/page.js:137-145 | a predicate true of every element keeps the whole list |
| Sorting.Insert | src/app/contacts/page.js:146-153 | inserting adds exactly one occurrence of the element |
| Sorting.SortBy | src/app/contacts/page.js:146-153 | `sort` returns a permutation of its input |
| Sorting.InsertSorted | src/app/contacts/page.js:146-153 | inserting into a sorted list keeps it sorted, for a total preorder |
| Sorting.SortBySorted | src/app/contacts/page.js:146-153 | `sort` with a total preorder comparator yields a sorted list |
| Sorting.InsertKeepsTieOrder | src/app/contacts/page.js:146-153 | insertion keeps the relative order of equal-key elements |
| Sorting.SortByStable | src/app/contacts/page.js:146-153 | `sort` is stable: elements with equal keys stay in input order |
| Ordering.KeyOrderTotal | src/app/contacts/page.js:146-153 | comparing by a string key, ascending or descending, is a total preorder |
| Ordering.Compare | src/app/contacts/page.js:148-151 | the three-way comparator is 0 iff neither key is smaller, and `<= 0` iff the pair is in order for the direction |
| ListOps.ReplaceById | src/app/contacts/page.js:92-95 | same length; each item with the saved item's `_id` is replaced by it, every other item is unchanged |
| ListOps.ReplaceByIdKeepsIds | src/app/contacts/page.js:92-95 | replacing keeps every position's `_id`, and the saved item appears if its `_id` did |
| ListOps.RemoveById | src/app/contacts/page.js:127-129 | an item survives iff its `_id` differs from the deleted id; order is kept |
| ListOps.RemoveByIdUnchanged | src/app/contacts/page.js:127-129 | deleting leaves the list unchanged iff no item has that `_id` |
| ListOps.RemoveByIdIdempotent | src/app/contacts/page.js:127-129 | deleting the same id twice is the same as once |
| ListOps.AfterSave | src/app/contacts/page.js:92-98 | editing gives `ReplaceById` of the returned item, so the length is kept and only items with its `_id` change; creating prepends the new item to the unchanged list |
| Paging.TotalPages | src/app/contacts/page.js:174 | `ceil(count / 5)`: enough pages for every item, and no empty last page |
| Paging.PageSlice | src/app/contacts/page.js:159-163 | `slice((p-1)*5, p*5)`: at most 5 items, item `k` is item `(p-1)*5+k` of the list, clamped to its length |
| Paging.PageOfIndex | src/app/contacts/page.js:158-163 | every item lies on a page in range, at position `i % 5` |
| Paging.PageInRangeNonEmpty | src/app/contacts/page.js:158-163 | a page in `1..totalPages` shows at least one item |
| Paging.RangeMessage | src/app/contacts/page.js:179 | the out-of-range message is not empty |
| Paging.JumpToPage | src/app/contacts/page.js:172-181 | the error clears iff the parsed input is in `1..totalPages`; then the page becomes it; otherwise the page stays and the range message is set; an in-range page stays in range |
| Paging.JumpToTypedPage | src/app/contacts/page.js:172-181 | typing an in-range page number jumps to it |
| Paging.NextPage | src/app/contacts/page.js:183-188 | moves forward by one iff not on the last page; stays in range |
| Paging.PreviousPage | src/app/contacts/page.js:190-194 | moves back by one iff past page 1; stays in range |
| Paging.PreviousUndoesNext | src/app/contacts/page.js:183-194 | Previous after a successful Next returns to the page |
| Paging.NextUndoesPrevious | src/app/contacts/page.js:183-194 | Next after a successful Previous returns to the page |
| Paging.PageInput | src/app/contacts/page.js:165-170 | the typed value is taken iff it reads as a number or is empty; otherwise the input stays as it was |
| Paging.TypedPageJumps | src/app/contacts/page.js:165-181 | typing the number of a page in range into the box, then jumping, goes to that page with no error |
| UserModel.NewUser | src/app/models/User.js:6-14 | a new document carries every given field (display name, username, email, password, faculty, gender, student id), the id and the creation time; the role defaults to "user" |
| UserModel.InsertKeepsUnique | src/app/models/User.js:7-8 | saving an admissible user keeps usernames and emails unique |
| Http.UploadNameRoundTrip | src/app/api/contacts/route.js:47-54 | the time and the original name can be read back from an upload file name |
| Http.UploadNameInjective | src/app/api/contacts/route.js:47-54 | distinct (time, name) pairs give distinct file names |
| Db.UserCollection.constructor | src/app/models/User.js:6-14 | an empty, valid collection |
| Db.UserCollection.Save | src/app/models/User.js:6-14 | saves iff username and email are present and the username, email and id are all new; then appends, otherwise unchanged; unique keys are kept |
| Db.ContactCollection.constructor | src/app/models/Contact.js:6-20 | an empty, valid collection |
| Db.ContactCollection.Save | src/app/models/Contact.js:6-20 | saves iff `createdBy` is present and the id is new; then appends, otherwise unchanged |
| Db.AnnouncementCollection.constructor | src/app/models/Announcement.js:5-8 | an empty, valid collection |
| Db.AnnouncementCollection.Save | src/app/models/Announcement.js:5-8 | saves iff title and content are non-empty and the id is new; then appends, otherwise unchanged |
| Db.UploadDir.constructor | src/app/api/contacts/route.js:42-45 | no directory and no files |
| Db.UploadDir.EnsureExists | src/app/api/contacts/route.js:42-45 | `mkdir -p` when the directory is missing: it exists afterwards unless `mkdirSync` throws, which is reported; the files are unchanged |
| Db.UploadDir.WriteFile | src/app/api/contacts/route.js:47-54 | writes exactly one file, replacing any file of that name, or throws and changes nothing; the outcome is reported |
| SignupRoute.Guard | src/app/api/auth/signup/route.js:17-44 | 400 "fill all the required fields" without username, email or password; 400 "already exists" when either is taken; 403 iff an admin sign-up lacks the matching code; passes iff none of these |
| SignupRoute.NewRecord | src/app/api/auth/signup/route.js:47-59 | a valid user; role "admin" iff "admin" was asked for, otherwise "user"; a falsy studentId becomes null; the password is the hash |
| SignupRoute.GuardedRecordSaves | src/app/api/auth/signup/route.js:25-61 | a sign-up that passes the guard, given a fresh id, is accepted by `save` |
| SignupRoute.SuccessMessage | src/app/api/auth/signup/route.js:63-66 | the capitalised role followed by " registered successfully."; none when the role is absent |
| SignupRoute.AdminSuccessMessage | src/app/api/auth/signup/route.js:64 | an admin reads "Admin registered successfully." |
| SignupRoute.UserSuccessMessage | src/app/api/auth/signup/route.js:64 | a user reads "User registered successfully." |
| SignupRoute.Post | src/app/api/auth/signup/route.js:10-73 | an unreadable body gives 500 and no change; a guard refusal gives its response and no change; otherwise the record is saved and the reply is 201 with the message, or 500 when the save fails or the role is absent |
| SignupRoute.MissingRoleStoredButFails | src/app/api/auth/signup/route.js:58-66 | without a role the user is saved as "user" while the reply is a 500 |
| LoginRoute.FindByUsername | src/app/api/auth/login/route.js:16 | finds a user with that username, or none iff no user has it |
| LoginRoute.Login | src/app/api/auth/login/route.js:7-61 | 200 with a token signed over `{userId, role}`, the role and the id iff the user exists, the password matches and `JWT_SECRET` is non-empty; 401 iff the user is missing or the password does not match; 500 otherwise |
| LoginRoute.LoginAfterSignup | src/app/api/auth/login/route.js:16-38 | a stored user logging in with their password gets a token for their own id and role |
| ProfileRoute.NewRecord | src/app/api/profile/route.js:35-48 | a valid user with the given display name, username, email, faculty, gender, student id and role, the hashed password, the id and the time |
| ProfileRoute.Get | src/app/api/profile/route.js:13-14 | 200 with every stored user |
| ProfileRoute.Post | src/app/api/profile/route.js:30-56 | "Missing required fields" without username, email, password or role; otherwise save, answering 201 with the user or 500 "Failed to create user" |
| ProfileRoute.DuplicateRefused | src/app/api/profile/route.js:50-56 | a profile clashing on username or email is refused by `save` |
| ContactsRoute.PictureName | src/app/api/contacts/route.js:47-54 | a file name exactly when a non-empty picture is sent, encoding the time and the original name |
| ContactsRoute.NewRecord | src/app/api/contacts/route.js:57-70 | a valid contact with the form's fields, the picture path and `createdBy` the fixed admin id |
| ContactsRoute.Get | src/app/api/contacts/route.js:13-14 | 200 with every stored contact |
| ContactsRoute.Post | src/app/api/contacts/route.js:26-77 | without name, faculty, role or gender: 400 and nothing changes; otherwise the directory is created and the picture, if any, is written. If either file system call throws, the reply is 500 and no contact is saved. Then the contact is saved (201) or the reply is 500, with the file left behind |
| AnnouncementRoute.NewestFirstIsTotalPreorder | src/app/api/announcement/route.js:13 | newest-first by `createdAt` is a total preorder |
| AnnouncementRoute.Get | src/app/api/announcement/route.js:13 | 200 with a permutation of the stored announcements, newest first |
| AnnouncementRoute.CoverName | src/app/api/announcement/route.js:34-49 | a file name exactly when a cover is sent, encoding the time and the original name |
| AnnouncementRoute.NewRecord | src/app/api/announcement/route.js:52-56 | a valid announcement with the title, content and cover; created and updated at the save time |
| AnnouncementRoute.Post | src/app/api/announcement/route.js:30-63 | 400 "Title and content are required" without either; with a cover, the directory is created and the cover written, and a throwing call gives 500 with nothing saved; then the announcement is saved (201) or the reply is 500 |
| AnnouncementRoute.NewestListedFirst | src/app/api/announcement/route.js:13 | an announcement no older than any other is listed first |
| AuthMiddleware.BearerToken | src/app/middleware/auth.js:12 | the token is the second space-separated part and contains no space |
| AuthMiddleware.BearerTokenAfterPrefix | src/app/middleware/auth.js:12 | after "Bearer " the token is the text up to the next space |
| AuthMiddleware.VerifyToken | src/app/middleware/auth.js:3-21 | 400 "missing or malformed" iff the header is absent, empty or lacks "Bearer "; then 200 with the decoded claims iff verification succeeds, else 401 with the failure reason |
| AuthMiddleware.VerifiesTheBearerToken | src/app/middleware/auth.js:8-17 | a header "Bearer " + token passes the format check and verifies exactly that token |
| CheckAuth.Get | src/app/api/check-auth/route.js:6-16 | always 200; role "admin" iff the header is exactly "Bearer admin-token", otherwise "user" |
| AuthContext.Storage.constructor | src/app/AuthContext.js:14-23 | storage holding the given items |
| AuthContext.Restored | src/app/AuthContext.js:14-23 | restores a session exactly when `isLoggedIn` is "true", with the stored role and a non-empty user id; otherwise keeps the current state |
| AuthContext.Persisted | src/app/AuthContext.js:36-39 | `login` sets exactly the three session keys and keeps every other item |
| AuthContext.Cleared | src/app/AuthContext.js:50-52 | `logout` removes exactly the three session keys and keeps every other item |
| AuthContext.RestoreAfterLogin | src/app/AuthContext.js:14-42 | a reload after `login` restores that session; an empty user id comes back as null |
| AuthContext.RestoreAfterLogout | src/app/AuthContext.js:14-55 | a reload after `logout` restores nothing |
| AuthContext.AuthProvider.constructor | src/app/AuthContext.js:7-10 | logged out, no role or id, loading |
| AuthContext.AuthProvider.Restore | src/app/AuthContext.js:14-28 | the session becomes `Restored` of the stored items, and loading ends |
| AuthContext.AuthProvider.Login | src/app/AuthContext.js:31-42 | logged in with the role and id, and the storage is `Persisted` |
| AuthContext.AuthProvider.Logout | src/app/AuthContext.js:44-55 | logged out, and the storage is `Cleared` |
| ContactsPage.FieldMatch | src/app/contacts/page.js:139-144 | throws (none) iff the field is missing; otherwise true iff the lower-cased term occurs in the lower-cased field |
| ContactsPage.ContactMatchIff | src/app/contacts/page.js:137-145 | a contact matches iff name, faculty, role or department contains the term, checked left to right; the filter throws iff it reaches a missing field |
| ContactsPage.FilterContactsIsFilter | src/app/contacts/page.js:137-145 | the filter succeeds iff no contact throws, and then keeps exactly the matching contacts |
| ContactsPage.FilterKeepsMatches | src/app/contacts/page.js:137-145 | the kept contacts are those that match, in their fetched order |
| ContactsPage.EmptySearchKeepsAll | src/app/contacts/page.js:137-145 | an empty search keeps every contact that has a name |
| ContactsPage.ContactOrderTotal | src/app/contacts/page.js:146-153 | the comparator for every field and order is a total preorder |
| ContactsPage.ViewIsMatches | src/app/contacts/page.js:137-153 | the shown list is a permutation of the matching contacts |
| ContactsPage.ViewIsSorted | src/app/contacts/page.js:146-153 | the shown list is ordered by the lower-cased field, ascending for "asc", descending otherwise |
| ContactsPage.ViewIsStable | src/app/contacts/page.js:146-153 | contacts with equal keys keep their fetched order |
| ContactsPage.FormValue | src/app/contacts/page.js:70-73 | a present value is sent as is; a `null` field, copied from a stored contact, is sent as the text "null" |
| ContactsPage.RequestFor | src/app/contacts/page.js:70-81 | PUT to `/api/contacts/<id>` when editing, else POST to `/api/contacts`, with the picture attached |
| ContactsPage.CompleteFormPassesServerGuard | src/app/contacts/page.js:61-81 | a form the page accepts passes the route's required-field check |
| ContactsPage.ContactPage.constructor | src/app/contacts/page.js:8-31 | the initial state: no contacts, empty form, sort by name ascending, page 1 |
| ContactsPage.ContactPage.CurrentContacts | src/app/contacts/page.js:158-163 | the whole current page of the filtered list: `min(5, remaining)` contacts, or none past the end, each the matching item of the filtered list |
| ContactsPage.ContactPage.Refresh | src/app/contacts/page.js:136-156 | the filtered list becomes the new view, or stays when the filter throws |
| ContactsPage.ContactPage.Fetch | src/app/contacts/page.js:38-52 | a failed load sets the load error and changes nothing else; a successful one stores the contacts and refreshes the view |
| ContactsPage.ContactPage.SetSearchTerm | src/app/contacts/page.js:137-156 | the term is set and the view recomputed |
| ContactsPage.ContactPage.SetSortField | src/app/contacts/page.js:146-156 | the sort field is set and the view recomputed |
| ContactsPage.ContactPage.SetSortOrder | src/app/contacts/page.js:146-156 | the sort order is set and the view recomputed |
| ContactsPage.ContactPage.Save | src/app/contacts/page.js:60-119 | an incomplete form sets the required message and sends nothing; otherwise sends `RequestFor`; failure sets the save error; success updates the list by `AfterSave` and resets the form |
| ContactsPage.ContactPage.Saved | src/app/contacts/page.js:92-112 | the list becomes `AfterSave` of the saved contact, the view is refreshed and the form, picture and editing are reset |
| ContactsPage.ContactPage.Delete | src/app/contacts/page.js:122-133 | an ok response removes exactly the contacts with that id; otherwise nothing is removed and the delete error is set |
| ContactsPage.ContactPage.Edit | src/app/contacts/page.js:419-433 | editing that contact, with its fields in the form |
| ContactsPage.ContactPage.HandlePageInput | src/app/contacts/page.js:165-170 | the input follows `PageInput` |
| ContactsPage.ContactPage.JumpToPage | src/app/contacts/page.js:172-181 | page and error follow `Paging.JumpToPage` over the filtered list |
| ContactsPage.ContactPage.NextPage | src/app/contacts/page.js:183-188 | the page follows `Paging.NextPage` over the filtered list |
| ContactsPage.ContactPage.PreviousPage | src/app/contacts/page.js:190-194 | the page follows `Paging.PreviousPage` |
| HomePage.ListedIffMatches | src/app/page.js:70-95 | the result is a permutation of the kept announcements; an announcement is kept iff the term is empty or its lower-cased title contains it |
| HomePage.OrderOfOption | src/app/page.js:82-92 | "newest" orders by `createdAt` descending, "oldest" ascending, "title" by title; any other option keeps the filtered order |
| HomePage.NewestIsStable | src/app/page.js:82-85 | under "newest", announcements created at the same time keep their fetched order |
| HomePage.RequestFor | src/app/page.js:107-121 | PUT to `/api/announcement/<id>` when editing, else POST to `/api/announcement`, carrying title, content and cover |
| HomePage.CompleteFormPassesServerGuard | src/app/page.js:102-121 | a form the page accepts passes the route's title-and-content check |
| HomePage.AnnouncementPage.constructor | src/app/page.js:30-46 | the initial state: nothing loaded, empty form, "newest", page 1 |
| HomePage.AnnouncementPage.CurrentAnnouncements | src/app/page.js:162-168 | the whole current page of the filtered list: `min(5, remaining)` announcements, or none past the end, each the matching item of the filtered list |
| HomePage.AnnouncementPage.ApplyFiltersAndSort | src/app/page.js:70-95 | the filtered list becomes `FiltersAndSort` of the unchanged announcements |
| HomePage.AnnouncementPage.Fetch | src/app/page.js:56-68 | a failed load sets the load error; a successful one stores the list and reapplies filter and sort |
| HomePage.AnnouncementPage.SetSearchTerm | src/app/page.js:52-95 | the term is set and the list recomputed |
| HomePage.AnnouncementPage.SetSortOption | src/app/page.js:52-95 | the option is set and the list recomputed |
| HomePage.AnnouncementPage.Save | src/app/page.js:101-150 | an empty title or content sets the required message and sends nothing; otherwise sends `RequestFor`; failure sets the save error; success updates by `AfterSave` and resets the form |
| HomePage.AnnouncementPage.Saved | src/app/page.js:132-142 | the list becomes `AfterSave` of the saved announcement, reapplied, with the form reset |
| HomePage.AnnouncementPage.Delete | src/app/page.js:152-159 | once the request completes, whatever its status, the announcements with that id are removed |
| HomePage.AnnouncementPage.Edit | src/app/page.js:328-336 | editing that announcement, with its title and content in the form |
| HomePage.AnnouncementPage.HandlePageInput | src/app/page.js:172-177 | the input follows `PageInput` |
| HomePage.AnnouncementPage.JumpToPage | src/app/page.js:179-191 | page and error follow `Paging.JumpToPage` over the filtered list |
| HomePage.AnnouncementPage.NextPage | src/app/page.js:193-200 | the page follows `Paging.NextPage` |
| HomePage.AnnouncementPage.PreviousPage | src/app/page.js:202-206 | the page follows `Paging.PreviousPage` |
| ProfilePage.FindById | src/app/profile/page.js:48-54 | finds a profile whose `_id` is the user id, or none iff there is none |
| ProfilePage.FormOfUser | src/app/profile/page.js:48-54 | the form of one's own profile carries every field of the stored document (display name, username, email, faculty, gender, student id, role) and its stored password hash |
| ProfilePage.EditForm | src/app/profile/page.js:148-160 | the edit form copies the profile's fields, with the password "" and the role kept |
| ProfilePage.ServerGuardNeedsPassword | src/app/profile/page.js:64-75 | a form the page accepts passes the route's check iff it also has a password and a role |
| ProfilePage.RequestFor | src/app/profile/page.js:73-85 | PUT iff editing or role "user", else POST; a user's URL is `/api/profile/<userId>`, an admin's editing URL the profile's id, otherwise `/api/profile` |
| ProfilePage.KeyMatches | src/app/profile/page.js:321-324 | matches iff the field is present and, lower-cased, contains the lower-cased term |
| ProfilePage.VisibleWithinPage | src/app/profile/page.js:163-166 | the shown profiles are the matching ones of the current 5-item slice, in order |
| ProfilePage.ProfilesPage.constructor | src/app/profile/page.js:8-28 | the initial state, with the role and id that `useAuth()` gives on the first render and an empty form with role "user" |
| ProfilePage.ProfilesPage.SessionChanged | src/app/profile/page.js:8 | a later render sees the provider's new session: the role and user id that the handlers use become the session's |
| ProfilePage.ProfilesPage.CurrentProfiles | src/app/profile/page.js:163-166 | at most 5 profiles, the matching ones of the current slice |
| ProfilePage.ProfilesPage.Fetch | src/app/profile/page.js:36-60 | a failed load sets the error; a user gets their own profile and its form; anyone else gets the whole list |
| ProfilePage.ProfilesPage.SetSearchTerm | src/app/profile/page.js:320-325 | the term is set and nothing else changes |
| ProfilePage.ProfilesPage.Save | src/app/profile/page.js:63-125 | an incomplete form sets the required message and sends nothing; otherwise sends `RequestFor`; success updates the list by `AfterSave`, reports success, resets the form only for an admin and keeps the saved profile for a user |
| ProfilePage.ProfilesPage.Delete | src/app/profile/page.js:128-145 | an ok response removes exactly the profiles with that id and reports success; otherwise the delete error is set |
| ProfilePage.ProfilesPage.Edit | src/app/profile/page.js:148-160 | editing that profile, with `EditForm` in the form |
| ProfilePage.ProfilesPage.HandlePageInput | src/app/profile/page.js:180-186 | the input follows `PageInput` |
| ProfilePage.ProfilesPage.JumpToPage | src/app/profile/page.js:188-197 | page and error follow `Paging.JumpToPage` over the unfiltered list |
| ProfilePage.ProfilesPage.NextPage | src/app/profile/page.js:168-172 | the page follows `Paging.NextPage` over the unfiltered list |
| ProfilePage.ProfilesPage.PreviousPage | src/app/profile/page.js:174-178 | the page follows `Paging.PreviousPage` |

## Left out

- Text.Lower and Text.Less: case mapping is ASCII-only. Strings are compared character by character, for both `<` and `localeCompare` (the title sort). Unicode case folding and locale collation are not modelled.
- Paging.PageInput: the `isNaN` test is a boolean parameter, because JavaScript's number coercion is not modelled.
- `fetch`, `async`/`await` and the `loading` flags of the pages are not modelled. Each request's outcome is a parameter of the page method that handles it. The list refresh that follows a save is a separate `Fetch` call.
- The JSX rendering, the single-field `onChange` setters and the file pickers are not modelled. They only copy input into state.
- Connection failures in `dbConnect` are not modelled.
- The error objects put into 500 bodies and all console logging are not modelled.
- LoginRoute.Login: the username is a string. Mongoose dropping `{username: undefined}` from the query, which would match the first user, is not modelled.
- Multipart encoding is not modelled, nor form values that are not files.
- ContactsPage.FormValue: a contact field is either a string or `null`. Both contact routes store `formData.get(key)`, which is `null` for a key that was not sent. A document that lacks a key altogether, whose copy in the form is `undefined` and is sent as "undefined", is not modelled.
- Db.UploadDir.WriteFile: a write that throws part-way is modelled as leaving the files unchanged. A partly written file is not modelled.
- JSON values of other types in request bodies are not modelled. Fields are present strings or absent.
- The `iat` claim that `jwt.sign` adds is not modelled. The claims are `{userId, role}`.
- AnnouncementRoute.Get: MongoDB does not promise an order among equal `createdAt` values. The model sorts stably, and the contract promises only the descending order.
- ContactsPage.ContactPage.Refresh: when the filter throws on a contact without a field, React's error boundary takes over. The model keeps the previous filtered list.
- Exceptions thrown by `localStorage` are not modelled.
- The `[id]` routes (PUT and DELETE) are not modelled. Only the pages' requests to them and their outcomes are.
- The headers sent with profile requests are not modelled.
- `Date` parsing of `createdAt` is not modelled. Times are integers, so an invalid date (NaN) is not.
- The transport layer is not modelled: `Response` objects, headers and status text. A reply is a status code with a body.
- React's render and effect scheduling is not modelled. The order of method calls stands for it. On a full page load, the profiles page is built with the logged-out session, its `Fetch` runs, and only then does `SessionChanged` bring in the restored session.
