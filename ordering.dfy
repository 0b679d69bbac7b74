/** Comparators that order items by a string key with `<` and `>`, as the
    contacts and announcements pages do, seen as `le` relations: ascending
    (`key(a) < key(b) ? -1 : key(a) > key(b) ? 1 : 0`) lets `a` stay before
    `b` unless `b`'s key is smaller, descending unless `b`'s key is larger. */
module Ordering {
  import opened Text
  import opened Sorting

  /** Ordering by a string key, in either direction, is a total preorder, so
      sorting by it yields a list in key order. */
  lemma KeyOrderTotal<T(!new)>(key: T -> string, le: (T, T) -> bool, ascending: bool)
    requires forall a, b :: le(a, b) == if ascending then !Less(key(b), key(a)) else !Less(key(a), key(b))
    ensures TotalPreorder(le)
  {
    forall a, b
      ensures le(a, b) || le(b, a)
    {
      LessTrichotomy(key(a), key(b));
    }
    forall a, b, c | le(a, b) && le(b, c)
      ensures le(a, c)
    {
      LessTrichotomy(key(a), key(b));
      LessTrichotomy(key(b), key(c));
      LessTrichotomy(key(a), key(c));
      if Less(key(a), key(b)) && Less(key(b), key(c)) {
        LessTransitive(key(a), key(b), key(c));
      }
      if Less(key(c), key(b)) && Less(key(b), key(a)) {
        LessTransitive(key(c), key(b), key(a));
      }
    }
  }

  /** The three-way string comparison of the pages' comparators. */
  function Compare(x: string, y: string, ascending: bool): (c: int)
    ensures c == 0 <==> !Less(x, y) && !Less(y, x)
    ensures c <= 0 <==> if ascending then !Less(y, x) else !Less(x, y)
  {
    LessTrichotomy(x, y);
    if Less(x, y) then (if ascending then -1 else 1)
    else if Less(y, x) then (if ascending then 1 else -1)
    else 0
  }
}
