/** Client-side pagination, identical on the contacts, announcements and
    profiles pages: five items a page, `Math.ceil(length / 5)` pages, a jump
    box whose input is read with `parseInt`, and Next/Previous buttons. */
module Paging {
  import opened Wrappers
  import opened Text

  const PerPage: nat := 5

  /** `currentPage` starts at 1 and no handler ever lowers it below 1. */
  type Page = p: int | p >= 1 witness 1

  /** `Math.ceil(count / 5)`. */
  function TotalPages(count: nat): (t: nat)
    ensures t * PerPage >= count
    ensures t == 0 || (t - 1) * PerPage < count
  {
    (count + PerPage - 1) / PerPage
  }

  predicate InRange(page: int, count: nat)
  {
    1 <= page <= TotalPages(count)
  }

  /** `list.slice((page - 1) * 5, page * 5)`; `slice` clamps both bounds to
      the length of the list. */
  function PageSlice<T>(s: seq<T>, page: Page): (r: seq<T>)
    ensures |r| <= PerPage
    ensures |r| == if (page - 1) * PerPage >= |s| then 0 else Min(PerPage, |s| - (page - 1) * PerPage)
    ensures forall k :: 0 <= k < |r| ==> r[k] == s[(page - 1) * PerPage + k]
  {
    var lo := Min((page - 1) * PerPage, |s|);
    var hi := Min(page * PerPage, |s|);
    s[lo..hi]
  }

  function Min(a: int, b: int): int
  {
    if a <= b then a else b
  }

  /** Every page in range shows something, and each element of the list is
      shown on exactly one page: element `i` is item `i % 5` of page
      `i / 5 + 1`. */
  lemma PageOfIndex<T>(s: seq<T>, i: nat)
    requires i < |s|
    ensures InRange(i / PerPage + 1, |s|)
    ensures PageSlice(s, i / PerPage + 1)[i % PerPage] == s[i]
  {
  }

  lemma PageInRangeNonEmpty<T>(s: seq<T>, page: Page)
    requires InRange(page, |s|)
    ensures 0 < |PageSlice(s, page)|
  {
  }

  /** The text `jumpToPage` shows when it refuses a page number. */
  function RangeMessage(total: nat): (m: string)
    ensures m != ""
  {
    "Please enter a valid page number between 1 and " + NatToString(total) + "."
  }

  datatype JumpResult = JumpResult(page: Page, error: string)

  /** `jumpToPage`: `parseInt(input, 10)` is accepted when it is a number
      from 1 to the page count; otherwise the page stays and the range
      message is shown. */
  function JumpToPage(input: string, count: nat, page: Page, error: string): (r: JumpResult)
    ensures r.error == "" <==> (ParseInt(input).Some? && InRange(ParseInt(input).value, count))
    ensures r.error == "" ==> r.page == ParseInt(input).value
    ensures r.error != "" ==> r.page == page && r.error == RangeMessage(TotalPages(count))
    ensures InRange(page, count) ==> InRange(r.page, count)
  {
    var n := ParseInt(input);
    if n.Some? && n.value >= 1 && n.value <= TotalPages(count) then JumpResult(n.value, "")
    else JumpResult(page, RangeMessage(TotalPages(count)))
  }

  /** Typing the page number of any page in range into the box jumps there. */
  lemma JumpToTypedPage(n: nat, count: nat, page: Page, error: string)
    requires InRange(n, count)
    ensures JumpToPage(NatToString(n), count, page, error) == JumpResult(n, "")
  {
    ParseIntNatToString(n);
  }

  /** Typing the number of a page in range into the box, then jumping,
      goes to that page. */
  lemma TypedPageJumps(current: string, n: nat, count: nat, page: Page, error: string)
    requires InRange(n, count)
    ensures JumpToPage(PageInput(current, NatToString(n), true), count, page, error) == JumpResult(n, "")
  {
    JumpToTypedPage(n, count, page, error);
  }

  /** `handleNextPage`. */
  function NextPage(page: Page, count: nat): (r: Page)
    ensures r > page <==> page < TotalPages(count)
    ensures r == page || r == page + 1
    ensures InRange(page, count) ==> InRange(r, count)
  {
    if page < TotalPages(count) then page + 1 else page
  }

  /** `handlePreviousPage`. */
  function PreviousPage(page: Page): (r: Page)
    ensures r < page <==> page > 1
    ensures r == page || r == page - 1
    ensures forall count: nat :: InRange(page, count) ==> InRange(r, count)
  {
    if page > 1 then page - 1 else page
  }

  /** Previous undoes Next wherever Next moves. */
  lemma PreviousUndoesNext(page: Page, count: nat)
    requires page < TotalPages(count)
    ensures PreviousPage(NextPage(page, count)) == page
  {
  }

  /** Next undoes Previous on every page in range but the first. */
  lemma NextUndoesPrevious(page: Page, count: nat)
    requires 1 < page <= TotalPages(count)
    ensures NextPage(PreviousPage(page), count) == page
  {
  }

  /** `handlePageInput`: the box keeps what was typed when it reads as a
      number (`!isNaN(value)`, decided by the browser and passed in as
      `notNaN`) or is empty. */
  function PageInput(current: string, value: string, notNaN: bool): (r: string)
    ensures r == value || r == current
    ensures notNaN || value == "" ==> r == value
    ensures !notNaN && value != "" ==> r == current
  {
    if notNaN || value == "" then value else current
  }
}
