/** What the relational store keeps of a sheet's links when it saves the
    sheet collection, and why the migration writes categories before sheets.

    The relational save re-creates a sheet's links only for category ids
    that a stored category carries at that moment; the rest are dropped
    without an error. Links live in an association table, so what is kept
    is a set of ids. */
module Relational {

  import opened Records
  import opened Integrity

  /** The ids the relational store links a saved sheet to: its `categorias`
      (none when the key is absent) that name a category stored now. */
  function SavedLinks(s: Sheet, storedCatIds: seq<int>): (r: set<int>)
    ensures forall cid :: cid in r ==> cid in storedCatIds
    ensures s.categorias.None? ==> r == {}
  {
    set cid | cid in s.categorias.GetOr([]) && cid in storedCatIds
  }

  /** The relational save and the link-update filter agree on which links
      survive; they differ only in that the store keeps a set. */
  lemma SavedLinksAgreeWithFilter(s: Sheet, storedCatIds: seq<int>)
    ensures SavedLinks(s, storedCatIds) == set cid | cid in ValidLinks(s.categorias.GetOr([]), storedCatIds)
  {
  }

  /** Saving a sheet whose links resolve loses none of them. */
  lemma SavedLinksLoseNothingWhenLinked(s: Sheet, storedCatIds: seq<int>)
    requires LinksWithin(s, storedCatIds)
    ensures SavedLinks(s, storedCatIds) == set cid | cid in s.categorias.GetOr([])
  {
    if s.categorias.Some? {
      assert forall cid :: cid in s.categorias.value ==> cid in storedCatIds;
    }
  }

  /** The result of a migration into the relational store: the ids of the
      categories written, then, per sheet, the links kept. */
  datatype Migrated = Migrated(catIds: seq<int>, sheetLinks: seq<set<int>>)

  /** The migration writes the file's categories first and its sheets
      second, so each sheet's links are resolved against the migrated
      categories. */
  function Migrate(fileCats: seq<Category>, fileSheets: seq<Sheet>): (m: Migrated)
    ensures m.catIds == CategoryIds(fileCats)
    ensures |m.sheetLinks| == |fileSheets|
  {
    var catIds := CategoryIds(fileCats);
    Migrated(catIds, seq(|fileSheets|, i requires 0 <= i < |fileSheets| => SavedLinks(fileSheets[i], catIds)))
  }

  /** After a migration every kept link names a migrated category, and a
      sheet keeps every link that names one. */
  lemma {:induction false} MigrateResolvesLinks(fileCats: seq<Category>, fileSheets: seq<Sheet>, i: nat)
    requires i < |fileSheets|
    ensures var m := Migrate(fileCats, fileSheets);
      forall cid :: cid in m.sheetLinks[i] <==> cid in fileSheets[i].categorias.GetOr([]) && cid in m.catIds
  {
    var m := Migrate(fileCats, fileSheets);
    assert m.sheetLinks[i] == SavedLinks(fileSheets[i], CategoryIds(fileCats));
  }

  /** The order matters: had the sheets been written first, their links
      would have been resolved against the categories stored before the
      migration, and a link to a category only the file holds would have
      been lost. */
  lemma SheetsFirstLosesLinks(s: Sheet, fileCats: seq<Category>, oldIds: seq<int>, cid: int)
    requires cid in s.categorias.GetOr([]) && cid in CategoryIds(fileCats) && cid !in oldIds
    ensures cid in SavedLinks(s, CategoryIds(fileCats))
    ensures cid !in SavedLinks(s, oldIds)
  {
  }
}
