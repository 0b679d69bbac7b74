/** The contacts page: the fetched contacts, the filtered and sorted list
    derived from them by an effect, five-contact pages, and the form that
    creates or edits a contact. */
module ContactsPage {
  import opened Wrappers
  import opened Text
  import opened Sorting
  import opened Ordering
  import opened ListOps
  import opened Paging
  import opened Http
  import opened ContactModel
  import ContactsRoute

  /** The options of the sort select. */
  datatype SortField = Name | Faculty | Role | Department

  /** `newContact`: the form's text fields. Editing copies a contact's
      fields, which may be missing. */
  datatype ContactFields = ContactFields(
    name: Option<string>,
    faculty: Option<string>,
    role: Option<string>,
    department: Option<string>,
    email: Option<string>,
    phone: Option<string>,
    facebook: Option<string>,
    line: Option<string>,
    gender: Option<string>)

  const EmptyForm := ContactFields(Some(""), Some(""), Some(""), Some(""), Some(""),
                                   Some(""), Some(""), Some(""), Some(""))

  const RequiredMessage := "Name, Faculty, Role, and Gender are required."
  const SaveFailed := "Error saving contact. Please try again."
  const DeleteFailed := "Failed to delete contact. Please try again."
  const LoadFailed := "Failed to load contacts. Please try again later."

  /** `!name || !faculty || !role || !gender` fails. */
  predicate FormComplete(f: ContactFields)
  {
    Truthy(f.name) && Truthy(f.faculty) && Truthy(f.role) && Truthy(f.gender)
  }

  /** One search field: `x.toLowerCase().includes(term.toLowerCase())`;
      `None` when `x` is missing and `toLowerCase` throws. */
  function FieldMatch(x: Option<string>, term: string): (r: Option<bool>)
    ensures r.Some? <==> x.Some?
    ensures r.Some? ==> (r.value <==> exists i :: OccursAt(Lower(x.value), Lower(term), i))
  {
    if x.None? then None
    else
      IncludesIff(Lower(x.value), Lower(term));
      Some(Includes(Lower(x.value), Lower(term)))
  }

  /** The filter callback: the four matches joined by a short-circuit `||`. */
  function ContactMatch(c: Contact, term: string): Option<bool>
  {
    var n := FieldMatch(c.name, term);
    if n.None? || n.value then n
    else
      var f := FieldMatch(c.faculty, term);
      if f.None? || f.value then f
      else
        var r := FieldMatch(c.role, term);
        if r.None? || r.value then r
        else FieldMatch(c.department, term)
  }

  /** A contact matches when one of its four fields contains the term, and
      a missing field throws only when every field before it failed to
      match; with all four fields present, the match is a plain `||`. */
  lemma ContactMatchIff(c: Contact, term: string)
    ensures ContactMatch(c, term) == Some(true) <==>
      || FieldMatch(c.name, term) == Some(true)
      || (FieldMatch(c.name, term) == Some(false) && FieldMatch(c.faculty, term) == Some(true))
      || (FieldMatch(c.name, term) == Some(false) && FieldMatch(c.faculty, term) == Some(false)
          && FieldMatch(c.role, term) == Some(true))
      || (FieldMatch(c.name, term) == Some(false) && FieldMatch(c.faculty, term) == Some(false)
          && FieldMatch(c.role, term) == Some(false) && FieldMatch(c.department, term) == Some(true))
    ensures ContactMatch(c, term).None? <==>
      || c.name.None?
      || (FieldMatch(c.name, term) == Some(false) && c.faculty.None?)
      || (FieldMatch(c.name, term) == Some(false) && FieldMatch(c.faculty, term) == Some(false) && c.role.None?)
      || (FieldMatch(c.name, term) == Some(false) && FieldMatch(c.faculty, term) == Some(false)
          && FieldMatch(c.role, term) == Some(false) && c.department.None?)
    ensures c.name.Some? && c.faculty.Some? && c.role.Some? && c.department.Some? ==>
      ContactMatch(c, term).Some? &&
      (ContactMatch(c, term).value <==> FieldMatch(c.name, term).value || FieldMatch(c.faculty, term).value
                                        || FieldMatch(c.role, term).value || FieldMatch(c.department, term).value)
  {
  }

  function Keeps(term: string): Contact -> bool
  {
    c => ContactMatch(c, term) == Some(true)
  }

  /** `contacts.filter(...)`: `None` when the callback throws on some
      contact. */
  function FilterContacts(cs: seq<Contact>, term: string): Option<seq<Contact>>
    decreases |cs|
  {
    if cs == [] then Some([])
    else
      var rest := FilterContacts(cs[1..], term);
      var m := ContactMatch(cs[0], term);
      if m.None? || rest.None? then None
      else if m.value then Some([cs[0]] + rest.value)
      else rest
  }

  /** The filter throws exactly when the callback throws on some contact,
      and otherwise keeps the contacts the callback accepts. */
  lemma {:induction false} FilterContactsIsFilter(cs: seq<Contact>, term: string)
    ensures FilterContacts(cs, term).Some? <==> forall i :: 0 <= i < |cs| ==> ContactMatch(cs[i], term).Some?
    ensures FilterContacts(cs, term).Some? ==> FilterContacts(cs, term).value == Filter(cs, Keeps(term))
    decreases |cs|
  {
    if cs != [] {
      FilterContactsIsFilter(cs[1..], term);
      if forall i :: 0 <= i < |cs| ==> ContactMatch(cs[i], term).Some? {
        assert forall i :: 0 <= i < |cs[1..]| ==> ContactMatch(cs[1..][i], term).Some? by {
          forall i | 0 <= i < |cs[1..]| ensures ContactMatch(cs[1..][i], term).Some? {
            assert cs[1..][i] == cs[i + 1];
          }
        }
      } else {
        var i :| 0 <= i < |cs| && ContactMatch(cs[i], term).None?;
        if i > 0 {
          assert cs[1..][i - 1] == cs[i];
        }
      }
    }
  }

  /** A contact is kept exactly when the search term matches it, and the
      kept contacts keep their order. */
  lemma FilterKeepsMatches(cs: seq<Contact>, term: string)
    requires FilterContacts(cs, term).Some?
    ensures forall c :: c in FilterContacts(cs, term).value <==> c in cs && ContactMatch(c, term) == Some(true)
    ensures IsSubsequence(FilterContacts(cs, term).value, cs)
  {
    FilterContactsIsFilter(cs, term);
    FilterIsSubsequence(cs, Keeps(term));
  }

  /** An empty search keeps every contact that has a name. */
  lemma {:induction false} EmptySearchKeepsAll(cs: seq<Contact>)
    requires forall i :: 0 <= i < |cs| ==> cs[i].name.Some?
    ensures FilterContacts(cs, "") == Some(cs)
    decreases |cs|
  {
    if cs != [] {
      IncludesTrivial(Lower(cs[0].name.value));
      assert Lower("") == "";
      EmptySearchKeepsAll(cs[1..]);
      assert [cs[0]] + cs[1..] == cs;
    }
  }

  function FieldOf(c: Contact, field: SortField): Option<string>
  {
    match field
    case Name => c.name
    case Faculty => c.faculty
    case Role => c.role
    case Department => c.department
  }

  /** `a[sortField]?.toLowerCase() || ""`. */
  function SortKey(field: SortField): Contact -> string
  {
    c => Lower(FieldOf(c, field).GetOr(""))
  }

  /** The comparator: ascending for "asc", reversed for anything else. */
  function ContactCompare(a: Contact, b: Contact, field: SortField, order: string): int
  {
    Compare(SortKey(field)(a), SortKey(field)(b), order == "asc")
  }

  function ContactOrder(field: SortField, order: string): (Contact, Contact) -> bool
  {
    (a, b) => ContactCompare(a, b, field, order) <= 0
  }

  lemma ContactOrderTotal(field: SortField, order: string)
    ensures TotalPreorder(ContactOrder(field, order))
  {
    KeyOrderTotal(SortKey(field), ContactOrder(field, order), order == "asc");
  }

  /** The effect's result: filter, then sort. */
  function View(cs: seq<Contact>, term: string, field: SortField, order: string): Option<seq<Contact>>
  {
    match FilterContacts(cs, term)
    case None => None
    case Some(kept) => Some(SortBy(kept, ContactOrder(field, order)))
  }

  /** The list shown holds the matching contacts, each as often as it was
      fetched. */
  lemma ViewIsMatches(cs: seq<Contact>, term: string, field: SortField, order: string)
    requires View(cs, term, field, order).Some?
    ensures var v := View(cs, term, field, order).value;
      && multiset(v) == multiset(FilterContacts(cs, term).value)
      && forall c :: c in v <==> c in cs && ContactMatch(c, term) == Some(true)
  {
    var kept := FilterContacts(cs, term).value;
    var v := SortBy(kept, ContactOrder(field, order));
    FilterKeepsMatches(cs, term);
    forall c
      ensures c in v <==> c in kept
    {
      assert c in v <==> c in multiset(v);
      assert c in kept <==> c in multiset(kept);
    }
  }

  /** The list shown is in key order for the chosen field and direction. */
  lemma ViewIsSorted(cs: seq<Contact>, term: string, field: SortField, order: string)
    requires View(cs, term, field, order).Some?
    ensures var v := View(cs, term, field, order).value;
      forall i, j :: 0 <= i < j < |v| ==>
        if order == "asc" then !Less(SortKey(field)(v[j]), SortKey(field)(v[i]))
        else !Less(SortKey(field)(v[i]), SortKey(field)(v[j]))
  {
    ContactOrderTotal(field, order);
    SortBySorted(FilterContacts(cs, term).value, ContactOrder(field, order));
  }

  /** Contacts with equal keys keep the order they were fetched in. */
  lemma ViewIsStable(cs: seq<Contact>, term: string, field: SortField, order: string, x: Contact)
    requires View(cs, term, field, order).Some?
    ensures Filter(View(cs, term, field, order).value, TiesWith(x, ContactOrder(field, order)))
         == Filter(FilterContacts(cs, term).value, TiesWith(x, ContactOrder(field, order)))
  {
    ContactOrderTotal(field, order);
    SortByStable(FilterContacts(cs, term).value, x, ContactOrder(field, order));
  }

  /** What the effect leaves in `filteredContacts`: the new view, or the
      previous list when the filter throws. */
  function Shown(previous: seq<Contact>, cs: seq<Contact>, term: string, field: SortField, order: string): seq<Contact>
  {
    match View(cs, term, field, order)
    case None => previous
    case Some(v) => v
  }

  /** `formData.append(key, value)`. A missing field of a stored contact is
      `null`, because the contact routes store `formData.get(key)`, which is
      `null` for a key that was not sent; `append` turns it into the text
      "null". */
  function FormValue(v: Option<string>): (r: string)
    ensures v.Some? ==> r == v.value
    ensures v.None? ==> r == "null"
  {
    v.GetOr("null")
  }

  datatype SaveRequest = SaveRequest(verb: string, url: string, form: ContactsRoute.ContactForm)

  /** The request `handleSaveContact` sends. */
  function RequestFor(f: ContactFields, picture: Option<Upload>, editing: Option<Contact>): (r: SaveRequest)
    ensures r.verb == (if editing.Some? then "PUT" else "POST")
    ensures editing.Some? ==> r.url == "/api/contacts/" + editing.value.id
    ensures editing.None? ==> r.url == "/api/contacts"
    ensures r.form.profilePicture == picture
  {
    SaveRequest(
      if editing.Some? then "PUT" else "POST",
      if editing.Some? then "/api/contacts/" + editing.value.id else "/api/contacts",
      ContactsRoute.ContactForm(
        Some(FormValue(f.name)), Some(FormValue(f.faculty)), Some(FormValue(f.role)),
        Some(FormValue(f.department)), Some(FormValue(f.email)), Some(FormValue(f.phone)),
        Some(FormValue(f.facebook)), Some(FormValue(f.line)), Some(FormValue(f.gender)),
        picture))
  }

  /** A form the page lets through passes the server's own required-field
      check, with the same text in every field that was filled. */
  lemma CompleteFormPassesServerGuard(f: ContactFields, picture: Option<Upload>, editing: Option<Contact>)
    requires FormComplete(f)
    ensures ContactsRoute.HasRequired(RequestFor(f, picture, editing).form)
    ensures var g := RequestFor(f, picture, editing).form;
      g.name == f.name && g.faculty == f.faculty && g.role == f.role && g.gender == f.gender
  {
  }

  /** The Edit button's copy of a contact into the form. */
  function FieldsOf(c: Contact): ContactFields
  {
    ContactFields(c.name, c.faculty, c.role, c.department, c.email, c.phone,
                  c.facebook, c.line, c.gender)
  }

  class ContactPage {
    var contacts: seq<Contact>
    var filtered: seq<Contact>
    var form: ContactFields
    var picture: Option<Upload>
    var editing: Option<Contact>
    var error: string
    var searchTerm: string
    var sortField: SortField
    var sortOrder: string
    var currentPage: Page
    var inputPage: string

    /** The initial state, before the first fetch. */
    constructor ()
      ensures contacts == [] && filtered == [] && form == EmptyForm && picture.None? && editing.None?
      ensures error == "" && searchTerm == "" && sortField == Name && sortOrder == "asc"
      ensures currentPage == 1 && inputPage == ""
    {
      contacts := [];
      filtered := [];
      form := EmptyForm;
      picture := None;
      editing := None;
      error := "";
      searchTerm := "";
      sortField := Name;
      sortOrder := "asc";
      currentPage := 1;
      inputPage := "";
    }

    /** The contacts on the current page. */
    function CurrentContacts(): (r: seq<Contact>)
      reads this
      ensures |r| <= PerPage
      ensures |r| == if (currentPage - 1) * PerPage >= |filtered| then 0
                     else Min(PerPage, |filtered| - (currentPage - 1) * PerPage)
      ensures forall k :: 0 <= k < |r| ==>
                (currentPage - 1) * PerPage + k < |filtered| && r[k] == filtered[(currentPage - 1) * PerPage + k]
    {
      PageSlice(filtered, currentPage)
    }

    /** The filter-and-sort effect, run whenever the contacts, the search
        term, the sort field or the sort order change. */
    method Refresh()
      modifies this`filtered
      ensures filtered == Shown(old(filtered), contacts, searchTerm, sortField, sortOrder)
    {
      var v := View(contacts, searchTerm, sortField, sortOrder);
      if v.Some? {
        filtered := v.value;
      }
    }

    /** `fetchContacts`; `response` is the parsed body, or `None` when the
        request fails. */
    method Fetch(response: Option<seq<Contact>>)
      modifies this`contacts, this`filtered, this`error
      ensures response.None? ==> contacts == old(contacts) && filtered == old(filtered) && error == LoadFailed
      ensures response.Some? ==>
        && contacts == response.value && error == old(error)
        && filtered == Shown(response.value, contacts, searchTerm, sortField, sortOrder)
    {
      if response.None? {
        error := LoadFailed;
        return;
      }
      contacts := response.value;
      filtered := response.value;
      Refresh();
    }

    method SetSearchTerm(term: string)
      modifies this`searchTerm, this`filtered
      ensures searchTerm == term
      ensures filtered == Shown(old(filtered), contacts, term, sortField, sortOrder)
    {
      searchTerm := term;
      Refresh();
    }

    method SetSortField(field: SortField)
      modifies this`sortField, this`filtered
      ensures sortField == field
      ensures filtered == Shown(old(filtered), contacts, searchTerm, field, sortOrder)
    {
      sortField := field;
      Refresh();
    }

    method SetSortOrder(order: string)
      modifies this`sortOrder, this`filtered
      ensures sortOrder == order
      ensures filtered == Shown(old(filtered), contacts, searchTerm, sortField, order)
    {
      sortOrder := order;
      Refresh();
    }

    /** `handleSaveContact`. The request is returned, and `response` is the
        contact the server sends back, or `None` when the request fails. */
    method Save(response: Option<Contact>) returns (request: Option<SaveRequest>)
      modifies this`contacts, this`filtered, this`form, this`picture, this`editing, this`error
      ensures !FormComplete(old(form)) ==>
        && request.None? && error == RequiredMessage
        && contacts == old(contacts) && filtered == old(filtered)
        && form == old(form) && picture == old(picture) && editing == old(editing)
      ensures FormComplete(old(form)) ==> request == Some(RequestFor(old(form), old(picture), old(editing)))
      ensures FormComplete(old(form)) && response.None? ==>
        && error == SaveFailed
        && contacts == old(contacts) && filtered == old(filtered)
        && form == old(form) && picture == old(picture) && editing == old(editing)
      ensures FormComplete(old(form)) && response.Some? ==>
        && error == ""
        && contacts == AfterSave(old(contacts), old(editing).Some?, response.value, ContactId)
        && filtered == Shown(old(filtered), contacts, searchTerm, sortField, sortOrder)
        && form == EmptyForm && picture.None? && editing.None?
    {
      if !FormComplete(form) {
        error := RequiredMessage;
        return None;
      }
      error := "";
      request := Some(RequestFor(form, picture, editing));
      if response.None? {
        error := SaveFailed;
        return;
      }
      Saved(response.value);
    }

    /** The success path of `handleSaveContact`: update the list, then
        reset the form. */
    method Saved(u: Contact)
      modifies this`contacts, this`filtered, this`form, this`picture, this`editing
      ensures contacts == AfterSave(old(contacts), old(editing).Some?, u, ContactId)
      ensures filtered == Shown(old(filtered), contacts, searchTerm, sortField, sortOrder)
      ensures form == EmptyForm && picture.None? && editing.None?
    {
      contacts := AfterSave(contacts, editing.Some?, u, ContactId);
      Refresh();
      form := EmptyForm;
      picture := None;
      editing := None;
    }

    /** `handleDeleteContact(id)`; `ok` is whether the response was ok. */
    method Delete(id: string, ok: bool)
      modifies this`contacts, this`filtered, this`error
      ensures ok ==> contacts == RemoveById(old(contacts), id, ContactId) && error == old(error)
      ensures ok ==> filtered == Shown(old(filtered), contacts, searchTerm, sortField, sortOrder)
      ensures !ok ==> contacts == old(contacts) && filtered == old(filtered) && error == DeleteFailed
    {
      if !ok {
        error := DeleteFailed;
        return;
      }
      contacts := RemoveById(contacts, id, ContactId);
      Refresh();
    }

    /** The Edit button of a contact card. */
    method Edit(c: Contact)
      modifies this`editing, this`form
      ensures editing == Some(c) && form == FieldsOf(c)
    {
      editing := Some(c);
      form := FieldsOf(c);
    }

    method HandlePageInput(value: string, notNaN: bool)
      modifies this`inputPage
      ensures inputPage == PageInput(old(inputPage), value, notNaN)
    {
      inputPage := PageInput(inputPage, value, notNaN);
    }

    method JumpToPage()
      modifies this`currentPage, this`error
      ensures var r := Paging.JumpToPage(inputPage, |filtered|, old(currentPage), old(error));
              currentPage == r.page && error == r.error
    {
      var r := Paging.JumpToPage(inputPage, |filtered|, currentPage, error);
      currentPage := r.page;
      error := r.error;
    }

    method NextPage()
      modifies this`currentPage
      ensures currentPage == Paging.NextPage(old(currentPage), |filtered|)
    {
      currentPage := Paging.NextPage(currentPage, |filtered|);
    }

    method PreviousPage()
      modifies this`currentPage
      ensures currentPage == Paging.PreviousPage(old(currentPage))
    {
      currentPage := Paging.PreviousPage(currentPage);
    }
  }
}
