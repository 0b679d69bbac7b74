/** The list algorithms that the pages apply to fetched arrays:
    `Array.prototype.filter`, and `Array.prototype.sort` with a comparator,
    which is stable. A comparator `cmp` is modelled by the relation
    `le(a, b) := cmp(a, b) <= 0` ("a may stay before b"). */
module Sorting {

  /** `le` is total and transitive, as a consistent comparator makes it. */
  ghost predicate TotalPreorder<T(!new)>(le: (T, T) -> bool)
  {
    && (forall a, b :: le(a, b) || le(b, a))
    && (forall a, b, c :: le(a, b) && le(b, c) ==> le(a, c))
  }

  ghost predicate Sorted<T>(s: seq<T>, le: (T, T) -> bool)
  {
    forall i, j :: 0 <= i < j < |s| ==> le(s[i], s[j])
  }

  /** `r` is obtained from `s` by deleting some elements, keeping order. */
  ghost predicate IsSubsequence<T>(r: seq<T>, s: seq<T>)
    decreases |s|
  {
    if r == [] then true
    else if s == [] then false
    else (r[0] == s[0] && IsSubsequence(r[1..], s[1..])) || IsSubsequence(r, s[1..])
  }

  /** `s.filter(p)`. */
  function Filter<T(!new)>(s: seq<T>, p: T -> bool): (r: seq<T>)
    ensures |r| <= |s|
    ensures forall x :: x in r <==> x in s && p(x)
    decreases |s|
  {
    if s == [] then []
    else if p(s[0]) then [s[0]] + Filter(s[1..], p)
    else Filter(s[1..], p)
  }

  /** A filtered list keeps the order of its source. */
  lemma {:induction false} FilterIsSubsequence<T(!new)>(s: seq<T>, p: T -> bool)
    ensures IsSubsequence(Filter(s, p), s)
    decreases |s|
  {
    if s != [] {
      FilterIsSubsequence(s[1..], p);
      var r := Filter(s, p);
      if p(s[0]) {
        assert r[0] == s[0] && r[1..] == Filter(s[1..], p);
      }
    }
  }

  /** A predicate that keeps everything keeps the list as it is. */
  lemma {:induction false} FilterAll<T(!new)>(s: seq<T>, p: T -> bool)
    requires forall x :: x in s ==> p(x)
    ensures Filter(s, p) == s
    decreases |s|
  {
    if s != [] {
      assert s[0] in s;
      assert forall x :: x in s[1..] ==> x in s;
      FilterAll(s[1..], p);
      assert [s[0]] + s[1..] == s;
    }
  }

  /** Places `x` before the first element it may precede; `x` goes before
      the elements it ties with, which is what keeps the sort stable. */
  function Insert<T>(x: T, s: seq<T>, le: (T, T) -> bool): (r: seq<T>)
    ensures multiset(r) == multiset(s) + multiset{x}
    decreases |s|
  {
    if s == [] || le(x, s[0]) then [x] + s
    else
      assert s == [s[0]] + s[1..];
      [s[0]] + Insert(x, s[1..], le)
  }

  /** The array's `sort(cmp)`: an insertion sort, stable like the JavaScript one. */
  function SortBy<T>(s: seq<T>, le: (T, T) -> bool): (r: seq<T>)
    ensures multiset(r) == multiset(s)
    decreases |s|
  {
    if s == [] then []
    else
      assert s == [s[0]] + s[1..];
      Insert(s[0], SortBy(s[1..], le), le)
  }

  lemma {:induction false} InsertSorted<T(!new)>(x: T, s: seq<T>, le: (T, T) -> bool)
    requires TotalPreorder(le)
    requires Sorted(s, le)
    ensures Sorted(Insert(x, s, le), le)
    decreases |s|
  {
    if s != [] && !le(x, s[0]) {
      var rest := Insert(x, s[1..], le);
      InsertSorted(x, s[1..], le);
      assert le(s[0], x);
      forall y | y in rest
        ensures le(s[0], y)
      {
        assert y in multiset(rest);
        if y != x {
          assert y in multiset(s[1..]);
          assert y in s[1..];
        }
      }
      var r := [s[0]] + rest;
      forall i, j | 0 <= i < j < |r|
        ensures le(r[i], r[j])
      {
        if i == 0 {
          assert r[j] == rest[j - 1];
          assert rest[j - 1] in rest;
        } else {
          assert r[i] == rest[i - 1] && r[j] == rest[j - 1];
        }
      }
    }
  }

  /** The sorted list is in comparator order. Together with the
      permutation contract of `SortBy`, this is the whole promise of `sort`. */
  lemma {:induction false} SortBySorted<T(!new)>(s: seq<T>, le: (T, T) -> bool)
    requires TotalPreorder(le)
    ensures Sorted(SortBy(s, le), le)
    decreases |s|
  {
    if s != [] {
      SortBySorted(s[1..], le);
      InsertSorted(s[0], SortBy(s[1..], le), le);
    }
  }

  /** The elements that compare equal to `x`. */
  function TiesWith<T>(x: T, le: (T, T) -> bool): T -> bool
  {
    y => le(x, y) && le(y, x)
  }

  /** Inserting `a` adds it to the ties of `x` exactly in front of the ties
      already present, if it ties with `x` at all. */
  lemma {:induction false} InsertKeepsTieOrder<T(!new)>(x: T, a: T, t: seq<T>, le: (T, T) -> bool)
    requires TotalPreorder(le)
    ensures Filter(Insert(a, t, le), TiesWith(x, le))
         == (if TiesWith(x, le)(a) then [a] else []) + Filter(t, TiesWith(x, le))
    decreases |t|
  {
    var p := TiesWith(x, le);
    if t == [] || le(a, t[0]) {
      assert ([a] + t)[1..] == t;
    } else {
      InsertKeepsTieOrder(x, a, t[1..], le);
      var r := [t[0]] + Insert(a, t[1..], le);
      assert r[1..] == Insert(a, t[1..], le);
      assert !(p(a) && p(t[0]));
    }
  }

  /** The sort is stable: elements that compare equal keep their relative
      order. */
  lemma {:induction false} SortByStable<T(!new)>(s: seq<T>, x: T, le: (T, T) -> bool)
    requires TotalPreorder(le)
    ensures Filter(SortBy(s, le), TiesWith(x, le)) == Filter(s, TiesWith(x, le))
    decreases |s|
  {
    if s != [] {
      SortByStable(s[1..], x, le);
      InsertKeepsTieOrder(x, s[0], SortBy(s[1..], le), le);
    }
  }
}
