/** The announcements page: the fetched announcements, the list derived from
    them by `applyFiltersAndSort`, five-announcement pages, and the form that
    creates or edits an announcement. */
module HomePage {
  import opened Wrappers
  import opened Text
  import opened Sorting
  import opened Ordering
  import opened ListOps
  import opened Paging
  import opened Http
  import opened AnnouncementModel
  import AnnouncementRoute

  /** `newAnnouncement`. */
  datatype AnnouncementFields = AnnouncementFields(title: string, content: string)

  const EmptyForm := AnnouncementFields("", "")

  const RequiredMessage := "Title and Content cannot be empty."
  const SaveFailed := "Error saving announcement. Please try again."
  const LoadFailed := "Failed to load announcements. Please try again later."

  /** `title.toLowerCase().includes(searchTerm.toLowerCase())`. */
  function TitleMatches(term: string): Announcement -> bool
  {
    (a: Announcement) => Includes(Lower(a.title), Lower(term))
  }

  /** `(a, b) => new Date(b.createdAt) - new Date(a.createdAt)`. */
  function Newest(a: Announcement, b: Announcement): bool
  {
    b.createdAt - a.createdAt <= 0
  }

  /** `(a, b) => new Date(a.createdAt) - new Date(b.createdAt)`. */
  function Oldest(a: Announcement, b: Announcement): bool
  {
    a.createdAt - b.createdAt <= 0
  }

  /** `(a, b) => a.title.localeCompare(b.title)`. */
  function ByTitle(a: Announcement, b: Announcement): bool
  {
    Compare(a.title, b.title, true) <= 0
  }

  /** The kept announcements: all of them for an empty search. */
  function Kept(anns: seq<Announcement>, term: string): seq<Announcement>
  {
    if term != "" then Filter(anns, TitleMatches(term)) else anns
  }

  /** `applyFiltersAndSort`: filter on a copy, then sort by the option;
      an option other than the three leaves the filtered order. */
  function FiltersAndSort(anns: seq<Announcement>, term: string, option: string): seq<Announcement>
  {
    var kept := Kept(anns, term);
    if option == "newest" then SortBy(kept, Newest)
    else if option == "oldest" then SortBy(kept, Oldest)
    else if option == "title" then SortBy(kept, ByTitle)
    else kept
  }

  /** An announcement is listed exactly when the search is empty or its
      title contains the term, ignoring case. */
  lemma ListedIffMatches(anns: seq<Announcement>, term: string, option: string)
    ensures multiset(FiltersAndSort(anns, term, option)) == multiset(Kept(anns, term))
    ensures forall a :: a in FiltersAndSort(anns, term, option) <==>
              a in anns && (term == "" || Includes(Lower(a.title), Lower(term)))
    ensures term == "" ==> multiset(FiltersAndSort(anns, term, option)) == multiset(anns)
  {
    var r := FiltersAndSort(anns, term, option);
    var kept := Kept(anns, term);
    forall a
      ensures a in r <==> a in kept
    {
      assert a in r <==> a in multiset(r);
      assert a in kept <==> a in multiset(kept);
    }
  }

  /** The order each option promises; "title" sorts by the string order of
      the titles. */
  lemma OrderOfOption(anns: seq<Announcement>, term: string, option: string)
    ensures var r := FiltersAndSort(anns, term, option);
      && (option == "newest" ==> forall i, j :: 0 <= i < j < |r| ==> r[i].createdAt >= r[j].createdAt)
      && (option == "oldest" ==> forall i, j :: 0 <= i < j < |r| ==> r[i].createdAt <= r[j].createdAt)
      && (option == "title" ==> forall i, j :: 0 <= i < j < |r| ==> !Less(r[j].title, r[i].title))
      && (option !in {"newest", "oldest", "title"} ==> r == Kept(anns, term))
  {
    var kept := Kept(anns, term);
    if option == "newest" {
      assert TotalPreorder(Newest);
      SortBySorted(kept, Newest);
    } else if option == "oldest" {
      assert TotalPreorder(Oldest);
      SortBySorted(kept, Oldest);
    } else if option == "title" {
      KeyOrderTotal((a: Announcement) => a.title, ByTitle, true);
      SortBySorted(kept, ByTitle);
    }
  }

  /** Announcements created at the same moment keep their fetched order
      under "newest". */
  lemma NewestIsStable(anns: seq<Announcement>, term: string, x: Announcement)
    ensures Filter(FiltersAndSort(anns, term, "newest"), TiesWith(x, Newest))
         == Filter(Kept(anns, term), TiesWith(x, Newest))
  {
    assert TotalPreorder(Newest);
    SortByStable(Kept(anns, term), x, Newest);
  }

  datatype SaveRequest = SaveRequest(verb: string, url: string, form: AnnouncementRoute.AnnouncementForm)

  /** The request `handleSaveAnnouncement` sends. */
  function RequestFor(f: AnnouncementFields, cover: Option<Upload>, editing: Option<Announcement>): (r: SaveRequest)
    ensures r.verb == (if editing.Some? then "PUT" else "POST")
    ensures editing.Some? ==> r.url == "/api/announcement/" + editing.value.id
    ensures editing.None? ==> r.url == "/api/announcement"
    ensures r.form == AnnouncementRoute.AnnouncementForm(Some(f.title), Some(f.content), cover)
  {
    SaveRequest(
      if editing.Some? then "PUT" else "POST",
      if editing.Some? then "/api/announcement/" + editing.value.id else "/api/announcement",
      AnnouncementRoute.AnnouncementForm(Some(f.title), Some(f.content), cover))
  }

  /** A form the page lets through passes the server's own check. */
  lemma CompleteFormPassesServerGuard(f: AnnouncementFields, cover: Option<Upload>, editing: Option<Announcement>)
    requires f.title != "" && f.content != ""
    ensures AnnouncementRoute.HasRequired(RequestFor(f, cover, editing).form)
  {
  }

  class AnnouncementPage {
    var announcements: seq<Announcement>
    var filtered: seq<Announcement>
    var form: AnnouncementFields
    var cover: Option<Upload>
    var editing: Option<Announcement>
    var error: string
    var currentPage: Page
    var searchTerm: string
    var sortOption: string
    var inputPage: string

    constructor ()
      ensures announcements == [] && filtered == [] && form == EmptyForm && cover.None? && editing.None?
      ensures error == "" && currentPage == 1 && searchTerm == "" && sortOption == "newest" && inputPage == ""
    {
      announcements := [];
      filtered := [];
      form := EmptyForm;
      cover := None;
      editing := None;
      error := "";
      currentPage := 1;
      searchTerm := "";
      sortOption := "newest";
      inputPage := "";
    }

    function CurrentAnnouncements(): (r: seq<Announcement>)
      reads this
      ensures |r| <= PerPage
      ensures |r| == if (currentPage - 1) * PerPage >= |filtered| then 0
                     else Min(PerPage, |filtered| - (currentPage - 1) * PerPage)
      ensures forall k :: 0 <= k < |r| ==>
                (currentPage - 1) * PerPage + k < |filtered| && r[k] == filtered[(currentPage - 1) * PerPage + k]
    {
      PageSlice(filtered, currentPage)
    }

    /** `applyFiltersAndSort`, run whenever the announcements, the search
        term or the sort option change; only the derived list is written. */
    method ApplyFiltersAndSort()
      modifies this`filtered
      ensures filtered == FiltersAndSort(announcements, searchTerm, sortOption)
    {
      filtered := FiltersAndSort(announcements, searchTerm, sortOption);
    }

    /** `fetchAnnouncements`; `response` is the parsed body, or `None` when
        the request fails. */
    method Fetch(response: Option<seq<Announcement>>)
      modifies this`announcements, this`filtered, this`error
      ensures response.None? ==> announcements == old(announcements) && filtered == old(filtered) && error == LoadFailed
      ensures response.Some? ==>
        && announcements == response.value && error == old(error)
        && filtered == FiltersAndSort(response.value, searchTerm, sortOption)
    {
      if response.None? {
        error := LoadFailed;
        return;
      }
      announcements := response.value;
      ApplyFiltersAndSort();
    }

    method SetSearchTerm(term: string)
      modifies this`searchTerm, this`filtered
      ensures searchTerm == term && filtered == FiltersAndSort(announcements, term, sortOption)
    {
      searchTerm := term;
      ApplyFiltersAndSort();
    }

    method SetSortOption(option: string)
      modifies this`sortOption, this`filtered
      ensures sortOption == option && filtered == FiltersAndSort(announcements, searchTerm, option)
    {
      sortOption := option;
      ApplyFiltersAndSort();
    }

    /** `handleSaveAnnouncement`. The request is returned, and `response`
        is the announcement the server sends back, or `None` when the
        request fails. */
    method Save(response: Option<Announcement>) returns (request: Option<SaveRequest>)
      modifies this`announcements, this`filtered, this`form, this`cover, this`editing, this`error
      ensures old(form.title) == "" || old(form.content) == "" ==>
        && request.None? && error == RequiredMessage
        && announcements == old(announcements) && filtered == old(filtered)
        && form == old(form) && cover == old(cover) && editing == old(editing)
      ensures old(form.title) != "" && old(form.content) != "" ==>
        request == Some(RequestFor(old(form), old(cover), old(editing)))
      ensures old(form.title) != "" && old(form.content) != "" && response.None? ==>
        && error == SaveFailed
        && announcements == old(announcements) && filtered == old(filtered)
        && form == old(form) && cover == old(cover) && editing == old(editing)
      ensures old(form.title) != "" && old(form.content) != "" && response.Some? ==>
        && error == ""
        && announcements == AfterSave(old(announcements), old(editing).Some?, response.value, AnnouncementId)
        && filtered == FiltersAndSort(announcements, searchTerm, sortOption)
        && form == EmptyForm && cover.None? && editing.None?
    {
      if form.title == "" || form.content == "" {
        error := RequiredMessage;
        return None;
      }
      error := "";
      request := Some(RequestFor(form, cover, editing));
      if response.None? {
        error := SaveFailed;
        return;
      }
      Saved(response.value);
    }

    /** The success path of `handleSaveAnnouncement`: update the list, then
        reset the form. */
    method Saved(a: Announcement)
      modifies this`announcements, this`filtered, this`form, this`cover, this`editing
      ensures announcements == AfterSave(old(announcements), old(editing).Some?, a, AnnouncementId)
      ensures filtered == FiltersAndSort(announcements, searchTerm, sortOption)
      ensures form == EmptyForm && cover.None? && editing.None?
    {
      announcements := AfterSave(announcements, editing.Some?, a, AnnouncementId);
      ApplyFiltersAndSort();
      form := EmptyForm;
      cover := None;
      editing := None;
    }

    /** `handleDeleteAnnouncement(id)`; `delivered` is whether `fetch`
        resolved at all. The response status is not looked at. */
    method Delete(id: string, delivered: bool)
      modifies this`announcements, this`filtered
      ensures delivered ==>
        && announcements == RemoveById(old(announcements), id, AnnouncementId)
        && filtered == FiltersAndSort(announcements, searchTerm, sortOption)
      ensures !delivered ==> announcements == old(announcements) && filtered == old(filtered)
    {
      if delivered {
        announcements := RemoveById(announcements, id, AnnouncementId);
        ApplyFiltersAndSort();
      }
    }

    /** The Edit button of an announcement card. */
    method Edit(a: Announcement)
      modifies this`editing, this`form
      ensures editing == Some(a) && form == AnnouncementFields(a.title, a.content)
    {
      editing := Some(a);
      form := AnnouncementFields(a.title, a.content);
    }

    method HandlePageInput(value: string, notNaN: bool)
      modifies this`inputPage
      ensures inputPage == PageInput(old(inputPage), value, notNaN)
    {
      inputPage := PageInput(inputPage, value, notNaN);
    }

    method JumpToPage()
      modifies this`currentPage, this`error
      ensures var r := Paging.JumpToPage(inputPage, |filtered|, old(currentPage), old(error));
              currentPage == r.page && error == r.error
    {
      var r := Paging.JumpToPage(inputPage, |filtered|, currentPage, error);
      currentPage := r.page;
      error := r.error;
    }

    method NextPage()
      modifies this`currentPage
      ensures currentPage == Paging.NextPage(old(currentPage), |filtered|)
    {
      currentPage := Paging.NextPage(currentPage, |filtered|);
    }

    method PreviousPage()
      modifies this`currentPage
      ensures currentPage == Paging.PreviousPage(old(currentPage))
    {
      currentPage := Paging.PreviousPage(currentPage);
    }
  }
}
