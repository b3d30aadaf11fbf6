/** Id allocation (`max(ids, default=0) + 1`), the first-match lookup by id
    that every single-record handler starts with, and removal of the record
    found there. */
module Ids {

  import opened Records

  /** The largest id of a non-empty collection. */
  function Max(ids: seq<int>): (m: int)
    requires ids != []
    ensures m in ids
    ensures forall x :: x in ids ==> x <= m
  {
    if |ids| == 1 then ids[0]
    else
      var rest := Max(ids[1..]);
      assert forall x :: x in ids ==> x == ids[0] || x in ids[1..];
      if ids[0] >= rest then ids[0] else rest
  }

  /** The id given to a new record: one more than the largest id, or 1 when
      the collection is empty. */
  function NextId(ids: seq<int>): (r: int)
    ensures forall x :: x in ids ==> x < r
    ensures ids == [] ==> r == 1
    ensures ids != [] ==> r - 1 in ids
  {
    if ids == [] then 1 else Max(ids) + 1
  }

  /** No id occurs twice. */
  ghost predicate Unique(ids: seq<int>) {
    forall i, j :: 0 <= i < j < |ids| ==> ids[i] != ids[j]
  }

  /** `k` is the position of the first occurrence of `id`. */
  ghost predicate IsFirst(ids: seq<int>, id: int, k: int) {
    0 <= k < |ids| && ids[k] == id && forall j :: 0 <= j < k ==> ids[j] != id
  }

  /** There is at most one first occurrence, so a lookup by id is determined. */
  lemma IsFirstUnique(ids: seq<int>, id: int, k1: int, k2: int)
    requires IsFirst(ids, id, k1) && IsFirst(ids, id, k2)
    ensures k1 == k2
  {
  }

  /** The position of the first occurrence of `id`, as `next(...)` over
      `enumerate` finds it. */
  function IndexOf(ids: seq<int>, id: int): (r: Option<nat>)
    ensures r.None? <==> id !in ids
    ensures r.Some? ==> IsFirst(ids, id, r.value)
  {
    if ids == [] then None
    else if ids[0] == id then Some(0)
    else
      assert forall x :: x in ids ==> x == ids[0] || x in ids[1..];
      match IndexOf(ids[1..], id)
      case None => None
      case Some(k) => Some(k + 1)
  }

  /** The sequence without its element at `k`, as `list.pop(k)` leaves it. */
  function RemoveAt<T>(s: seq<T>, k: nat): (r: seq<T>)
    requires k < |s|
    ensures |r| == |s| - 1
    ensures forall i :: 0 <= i < k ==> r[i] == s[i]
    ensures forall i :: k <= i < |r| ==> r[i] == s[i + 1]
  {
    s[..k] + s[k + 1..]
  }

  /** Removal loses exactly the popped element: nothing else goes and nothing
      is added. */
  lemma RemoveAtMultiset<T>(s: seq<T>, k: nat)
    requires k < |s|
    ensures multiset(s) == multiset(RemoveAt(s, k)) + multiset{s[k]}
  {
    assert s == s[..k] + [s[k]] + s[k + 1..];
  }

  /** A new id appended to a collection of unique ids keeps them unique. */
  lemma AppendNextIdUnique(ids: seq<int>)
    requires Unique(ids)
    ensures Unique(ids + [NextId(ids)])
  {
    var r := ids + [NextId(ids)];
    forall i, j | 0 <= i < j < |r| ensures r[i] != r[j] {
      if j == |ids| {
        assert r[i] == ids[i] && ids[i] in ids;
      }
    }
  }

  /** Removing one record keeps ids unique and, because they are unique,
      the removed id no longer occurs. */
  lemma RemoveAtUnique(ids: seq<int>, k: nat)
    requires Unique(ids) && k < |ids|
    ensures Unique(RemoveAt(ids, k))
    ensures ids[k] !in RemoveAt(ids, k)
  {
    var r := RemoveAt(ids, k);
    forall i, j | 0 <= i < j < |r| ensures r[i] != r[j] {
      var i' := if i < k then i else i + 1;
      var j' := if j < k then j else j + 1;
      assert r[i] == ids[i'] && r[j] == ids[j'] && i' < j';
    }
    forall i | 0 <= i < |r| ensures r[i] != ids[k] {
      var i' := if i < k then i else i + 1;
      assert r[i] == ids[i'] && i' != k;
    }
  }

  /** Without uniqueness the removed id may survive: removing the first of two
      records with id 7 leaves the second. */
  lemma RemoveAtKeepsDuplicate()
    ensures 7 in RemoveAt([7, 7], IndexOf([7, 7], 7).value)
  {
    assert RemoveAt([7, 7], 0) == [7];
  }

  /** The ids of a collection after a pop are the popped ids. */
  lemma CategoryIdsRemoveAt(cats: seq<Category>, k: nat)
    requires k < |cats|
    ensures CategoryIds(RemoveAt(cats, k)) == RemoveAt(CategoryIds(cats), k)
  {
  }

  /** Ids are allocated from the current maximum, not from a counter: once
      the record holding the largest id is deleted, wherever it sits, the
      next create hands the same id out again, provided the id just below
      it is still stored. */
  lemma {:induction false} NextIdReusesDeletedMaximum(ids: seq<int>, k: nat)
    requires k < |ids| && Unique(ids)
    requires forall x :: x in ids ==> x <= ids[k]
    requires ids[k] - 1 in ids
    ensures NextId(RemoveAt(ids, k)) == ids[k]
  {
    var rest := RemoveAt(ids, k);
    BelowDeletedMaximum(ids, k);
    var m :| 0 <= m < |ids| && ids[m] == ids[k] - 1;
    assert m != k;
    assert rest[if m < k then m else m - 1] == ids[k] - 1;
    assert ids[k] - 1 in rest && ids[k] - 1 <= Max(rest);
    assert Max(rest) in rest && Max(rest) < ids[k];
  }

  /** Deleting the record with the largest id never makes the next id
      larger than the deleted one (for ids from 1 up). */
  lemma {:induction false} NextIdAfterDeletingMaximum(ids: seq<int>, k: nat)
    requires k < |ids| && Unique(ids) && ids[k] >= 1
    requires forall x :: x in ids ==> x <= ids[k]
    ensures NextId(RemoveAt(ids, k)) <= ids[k]
  {
    var rest := RemoveAt(ids, k);
    BelowDeletedMaximum(ids, k);
    if rest != [] {
      assert Max(rest) in rest;
    }
  }

  /** Once a unique maximum is removed, every remaining id is below it. */
  lemma BelowDeletedMaximum(ids: seq<int>, k: nat)
    requires k < |ids| && Unique(ids)
    requires forall x :: x in ids ==> x <= ids[k]
    ensures forall x :: x in RemoveAt(ids, k) ==> x < ids[k]
  {
    var rest := RemoveAt(ids, k);
    forall x | x in rest ensures x < ids[k] {
      var i :| 0 <= i < |rest| && rest[i] == x;
      var i' := if i < k then i else i + 1;
      assert x == ids[i'] && ids[i'] in ids && i' != k;
    }
  }
}
