/** The updates the pages apply to their in-memory lists once the server has
    answered: replace by `_id` after an edit, prepend after a create, and
    remove by `_id` after a delete. */
module ListOps {
  import opened Sorting

  /** `prev.map(x => x._id === u._id ? u : x)`. */
  function ReplaceById<T>(s: seq<T>, u: T, idOf: T -> string): (r: seq<T>)
    ensures |r| == |s|
    ensures forall i :: 0 <= i < |s| ==> r[i] == (if idOf(s[i]) == idOf(u) then u else s[i])
    decreases |s|
  {
    if s == [] then []
    else [if idOf(s[0]) == idOf(u) then u else s[0]] + ReplaceById(s[1..], u, idOf)
  }

  /** After a replacement the list holds the same ids at the same places, and
      `u` is in it exactly when some element already carried its id. */
  lemma ReplaceByIdKeepsIds<T>(s: seq<T>, u: T, idOf: T -> string)
    ensures forall i :: 0 <= i < |s| ==> idOf(ReplaceById(s, u, idOf)[i]) == idOf(s[i])
    ensures (exists i :: 0 <= i < |s| && idOf(s[i]) == idOf(u)) ==> u in ReplaceById(s, u, idOf)
  {
    var r := ReplaceById(s, u, idOf);
    if exists i :: 0 <= i < |s| && idOf(s[i]) == idOf(u) {
      var i :| 0 <= i < |s| && idOf(s[i]) == idOf(u);
      assert r[i] == u;
    }
  }

  /** `prev.filter(x => x._id !== id)`. */
  function RemoveById<T(!new)>(s: seq<T>, id: string, idOf: T -> string): (r: seq<T>)
    ensures forall x :: x in r <==> x in s && idOf(x) != id
    ensures IsSubsequence(r, s)
  {
    FilterIsSubsequence(s, x => idOf(x) != id);
    Filter(s, x => idOf(x) != id)
  }

  /** Removal leaves the list alone exactly when no element has the id. */
  lemma {:induction false} RemoveByIdUnchanged<T(!new)>(s: seq<T>, id: string, idOf: T -> string)
    ensures RemoveById(s, id, idOf) == s <==> forall x :: x in s ==> idOf(x) != id
    decreases |s|
  {
    var p := x => idOf(x) != id;
    if forall x :: x in s ==> idOf(x) != id {
      FilterAll(s, p);
    } else {
      var x :| x in s && idOf(x) == id;
      assert x !in RemoveById(s, id, idOf);
    }
  }

  /** Removing twice removes no more than removing once. */
  lemma RemoveByIdIdempotent<T(!new)>(s: seq<T>, id: string, idOf: T -> string)
    ensures RemoveById(RemoveById(s, id, idOf), id, idOf) == RemoveById(s, id, idOf)
  {
    RemoveByIdUnchanged(RemoveById(s, id, idOf), id, idOf);
  }

  /** The list update after a successful save: replace by the returned
      record's id when editing, otherwise put the new record in front. */
  function AfterSave<T>(s: seq<T>, editing: bool, u: T, idOf: T -> string): (r: seq<T>)
    ensures editing ==> r == ReplaceById(s, u, idOf) && |r| == |s|
    ensures !editing ==> |r| == |s| + 1 && r[0] == u && r[1..] == s
  {
    if editing then ReplaceById(s, u, idOf) else [u] + s
  }
}
