/** The two list comprehensions that keep sheets and categories consistent:
    the filter that keeps only existing category ids when a sheet's links are
    replaced, and the cascade that drops every sheet referencing a deleted
    category. Both are order-preserving filters. */
module Integrity {

  import opened Records
  import opened Ids

  /** `[x for x in s if keep(x)]`. */
  function Filter<T(!new)>(s: seq<T>, keep: T -> bool): (r: seq<T>)
    ensures |r| <= |s|
  {
    if s == [] then []
    else if keep(s[0]) then [s[0]] + Filter(s[1..], keep)
    else Filter(s[1..], keep)
  }

  /** The filter keeps exactly the elements that pass. */
  lemma {:induction false} FilterMembers<T(!new)>(s: seq<T>, keep: T -> bool)
    ensures forall x :: x in Filter(s, keep) <==> x in s && keep(x)
  {
    if s != [] {
      FilterMembers(s[1..], keep);
      assert forall x :: x in s <==> x == s[0] || x in s[1..];
    }
  }

  /** The filter drops nothing exactly when every element passes, and then
      it returns its input. */
  lemma {:induction false} FilterKeepsAll<T(!new)>(s: seq<T>, keep: T -> bool)
    ensures |Filter(s, keep)| == |s| <==> forall i :: 0 <= i < |s| ==> keep(s[i])
    ensures |Filter(s, keep)| == |s| ==> Filter(s, keep) == s
  {
    if s != [] {
      FilterKeepsAll(s[1..], keep);
      if forall i :: 0 <= i < |s| ==> keep(s[i]) {
        assert forall i :: 0 <= i < |s[1..]| ==> keep(s[1..][i]) by {
          forall i | 0 <= i < |s[1..]| ensures keep(s[1..][i]) {
            assert s[1..][i] == s[i + 1];
          }
        }
      }
      if forall i :: 0 <= i < |s[1..]| ==> keep(s[1..][i]) {
        if keep(s[0]) {
          forall i | 0 <= i < |s| ensures keep(s[i]) {
            if i > 0 { assert s[i] == s[1..][i - 1]; }
          }
        }
      }
    }
  }

  /** On one element the filter keeps it exactly when it passes. */
  lemma FilterSingleton<T(!new)>(x: T, keep: T -> bool)
    ensures Filter([x], keep) == if keep(x) then [x] else []
  {
    assert [x][1..] == [];
  }

  /** Filtering a concatenation filters each part: the kept elements stay in
      their original order. With `FilterSingleton`, this pins the filter
      down completely. */
  lemma {:induction false} FilterConcat<T(!new)>(a: seq<T>, b: seq<T>, keep: T -> bool)
    ensures Filter(a + b, keep) == Filter(a, keep) + Filter(b, keep)
  {
    if a == [] {
      assert a + b == b;
    } else {
      assert (a + b)[1..] == a[1..] + b;
      FilterConcat(a[1..], b, keep);
    }
  }

  /** Filtering twice by the same test changes nothing the second time. */
  lemma {:induction false} FilterIdempotent<T(!new)>(s: seq<T>, keep: T -> bool)
    ensures Filter(Filter(s, keep), keep) == Filter(s, keep)
  {
    if s != [] {
      FilterIdempotent(s[1..], keep);
    }
  }

  /** Each element is kept as many times as it occurs, if it passes, and
      otherwise not at all: duplicates survive the filter. */
  lemma {:induction false} FilterMultiset<T(!new)>(s: seq<T>, keep: T -> bool, x: T)
    ensures multiset(Filter(s, keep))[x] == if keep(x) then multiset(s)[x] else 0
  {
    if s != [] {
      FilterMultiset(s[1..], keep, x);
      assert s == [s[0]] + s[1..];
    }
  }

  // ---------------------------------------------------------------------
  // Link update: keep only requested ids that name an existing category.

  /** `[cid for cid in requested if cid in ids_validos]`. */
  function ValidLinks(requested: seq<int>, existing: seq<int>): (r: seq<int>)
    ensures forall cid :: cid in r <==> cid in requested && cid in existing
    ensures |r| == |requested| <==> forall i :: 0 <= i < |requested| ==> requested[i] in existing
  {
    var known := cid => cid in existing;
    FilterMembers(requested, known);
    FilterKeepsAll(requested, known);
    Filter(requested, known)
  }

  /** The filter is a list operation, not a set one: it keeps the request's
      order and its repeated ids, and drops unknown ones. */
  lemma ValidLinksExample()
    ensures ValidLinks([2, 99, 1, 2], [1, 2]) == [2, 1, 2]
    ensures ValidLinks([1, 99], [1]) == [1]
  {
    var known: int -> bool := cid => cid in [1, 2];
    assert [2, 99, 1, 2][1..] == [99, 1, 2] && [99, 1, 2][1..] == [1, 2] && [1, 2][1..] == [2];
    assert Filter([2], known) == [2];
    assert Filter([1, 2], known) == [1, 2];
    assert Filter([99, 1, 2], known) == [1, 2];
    var one: int -> bool := cid => cid in [1];
    assert [1, 99][1..] == [99];
    assert Filter([99], one) == [];
  }

  // ---------------------------------------------------------------------
  // Cascade: drop every sheet that references a category.

  /** `'categorias' in p and categoria_id in p['categorias']`. */
  predicate References(s: Sheet, c: int) {
    s.categorias.Some? && c in s.categorias.value
  }

  /** The sheets that survive the deletion of category `c`, in order. */
  function Cascade(sheets: seq<Sheet>, c: int): (r: seq<Sheet>)
    ensures forall s :: s in r <==> s in sheets && !References(s, c)
    ensures forall s :: s in sheets && s.categorias.None? ==> s in r
    ensures |r| < |sheets| <==> exists i :: 0 <= i < |sheets| && References(sheets[i], c)
    ensures |r| == |sheets| ==> r == sheets
  {
    var unaffected := s => !References(s, c);
    FilterMembers(sheets, unaffected);
    FilterKeepsAll(sheets, unaffected);
    Filter(sheets, unaffected)
  }

  /** Cascading twice for the same category is the same as once. */
  lemma CascadeIdempotent(sheets: seq<Sheet>, c: int)
    ensures Cascade(Cascade(sheets, c), c) == Cascade(sheets, c)
  {
    FilterIdempotent(sheets, s => !References(s, c));
  }

  /** The surviving sheets keep their relative order: cascading a
      concatenation cascades each part. */
  lemma CascadeConcat(a: seq<Sheet>, b: seq<Sheet>, c: int)
    ensures Cascade(a + b, c) == Cascade(a, c) + Cascade(b, c)
  {
    FilterConcat(a, b, s => !References(s, c));
  }

  /** Unique ids stay unique without the first sheet, and none of the
      others repeats the first sheet's id. */
  lemma TailIdsUnique(sheets: seq<Sheet>)
    requires sheets != [] && Unique(SheetIds(sheets))
    ensures Unique(SheetIds(sheets[1..]))
    ensures forall t :: t in sheets[1..] ==> t.id != sheets[0].id
  {
    var ids := SheetIds(sheets);
    var tail := sheets[1..];
    forall i, j | 0 <= i < j < |tail| ensures tail[i].id != tail[j].id {
      assert tail[i].id == ids[i + 1] && tail[j].id == ids[j + 1];
    }
    forall t | t in tail ensures t.id != sheets[0].id {
      var m :| 0 <= m < |tail| && tail[m] == t;
      assert t.id == ids[m + 1] && sheets[0].id == ids[0];
    }
  }

  /** A sheet whose id no other sheet has can go in front of sheets with
      unique ids. */
  lemma ConsIdsUnique(first: Sheet, rest: seq<Sheet>)
    requires Unique(SheetIds(rest))
    requires forall t :: t in rest ==> t.id != first.id
    ensures Unique(SheetIds([first] + rest))
  {
    var r := [first] + rest;
    forall i, j | 0 <= i < j < |r| ensures r[i].id != r[j].id {
      if i == 0 {
        assert r[j] == rest[j - 1] && rest[j - 1] in rest;
      } else {
        assert r[i] == rest[i - 1] && r[j] == rest[j - 1];
        assert SheetIds(rest)[i - 1] != SheetIds(rest)[j - 1];
      }
    }
  }

  /** Filtering sheets keeps their ids unique. */
  lemma {:induction false} FilterKeepsSheetIdsUnique(sheets: seq<Sheet>, keep: Sheet -> bool)
    requires Unique(SheetIds(sheets))
    ensures Unique(SheetIds(Filter(sheets, keep)))
  {
    if sheets != [] {
      var tail := sheets[1..];
      TailIdsUnique(sheets);
      FilterKeepsSheetIdsUnique(tail, keep);
      FilterMembers(tail, keep);
      if keep(sheets[0]) {
        ConsIdsUnique(sheets[0], Filter(tail, keep));
      }
    }
  }

  /** The cascade keeps sheet ids unique. */
  lemma CascadeKeepsIdsUnique(sheets: seq<Sheet>, c: int)
    requires Unique(SheetIds(sheets))
    ensures Unique(SheetIds(Cascade(sheets, c)))
  {
    FilterKeepsSheetIdsUnique(sheets, s => !References(s, c));
  }

  // ---------------------------------------------------------------------
  // The relationship invariant: every link names an existing category.

  /** Every category id a sheet lists is one of `ids`. */
  predicate LinksWithin(s: Sheet, ids: seq<int>) {
    s.categorias.Some? ==> forall cid :: cid in s.categorias.value ==> cid in ids
  }

  /** Every sheet's links resolve against `ids`. */
  predicate LinksResolve(sheets: seq<Sheet>, ids: seq<int>) {
    forall i :: 0 <= i < |sheets| ==> LinksWithin(sheets[i], ids)
  }

  /** A sheet whose links were just replaced by `ValidLinks` resolves. */
  lemma ValidLinksResolve(s: Sheet, requested: seq<int>, ids: seq<int>)
    ensures LinksWithin(s.(categorias := Some(ValidLinks(requested, ids))), ids)
  {
  }

  /** Deleting category `k` and cascading keeps the invariant: each surviving
      sheet avoided the deleted id, so its links name categories still there. */
  lemma {:induction false} CascadeKeepsLinksResolved(sheets: seq<Sheet>, cats: seq<Category>, k: nat)
    requires k < |cats|
    requires LinksResolve(sheets, CategoryIds(cats))
    ensures LinksResolve(Cascade(sheets, cats[k].id), CategoryIds(RemoveAt(cats, k)))
  {
    var kept := Cascade(sheets, cats[k].id);
    var ids := CategoryIds(cats);
    var rest := CategoryIds(RemoveAt(cats, k));
    forall i | 0 <= i < |kept| ensures LinksWithin(kept[i], rest) {
      var s := kept[i];
      assert s in kept;
      var j :| 0 <= j < |sheets| && sheets[j] == s;
      assert LinksWithin(sheets[j], ids);
      if s.categorias.Some? {
        forall cid | cid in s.categorias.value ensures cid in rest {
          assert cid in ids && cid != cats[k].id;
          var m :| 0 <= m < |ids| && ids[m] == cid;
          assert m != k;
          var m' := if m < k then m else m - 1;
          assert rest[m'] == cid;
        }
      }
    }
  }

  /** Deleting one sheet keeps the invariant: it holds sheet by sheet. */
  lemma RemoveSheetKeepsLinksResolved(sheets: seq<Sheet>, k: nat, ids: seq<int>)
    requires k < |sheets| && LinksResolve(sheets, ids)
    ensures LinksResolve(RemoveAt(sheets, k), ids)
  {
    var r := RemoveAt(sheets, k);
    forall i | 0 <= i < |r| ensures LinksWithin(r[i], ids) {
      assert r[i] == sheets[if i < k then i else i + 1];
    }
  }
}
