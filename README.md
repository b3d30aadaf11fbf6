# Catalog service: a Dafny model of its in-memory core

The service keeps two collections. Sheets ("planilhas") are cards with a
title, a URL, an optional image and a list of category ids. Categories
("categorias") have a name. The handlers that change a collection load it
whole, change it in memory (append, pop, `dict.update`, filtering), write
it back whole, and push an event to the connected clients. The two
delete-all handlers are the exception: they write an empty collection
without loading anything and push no event. The list and get handlers only
load and reply. This project models that core:

- `records.dfy`: the record kinds, request bodies, replies and events. A
  record is a JSON object, so each named field is an `Option`: `Some` when
  its key is present, `None` when it is absent. Keys other than the named
  ones are kept in `extra`, and `WellFormed()` says that `extra` holds none
  of the named keys.
- `ids.dfy`: id allocation as `max(ids, default=0) + 1`, the first-match
  lookup by id, and removal by position.
- `integrity.dfy`: the order-preserving filter behind the link update and
  the category cascade, and the relationship invariant "every link names a
  stored category".
- `merge.dfy`: how a create body becomes a record, and how an edit body is
  merged into one.
- `catalog.dfy`: class `Catalog` with one method per handler. The two
  collections are its `seq` fields, and writing a collection back assigns
  the field (the file-backed store). The list methods return the size and
  the collection. The get methods return a reply. Every other method
  returns a reply and the events it emits. Each method states the whole new
  state.
- `relational.dfy`: the part of the relational store's save that the
  handlers depend on. When sheets are saved, each link is re-created only if
  a stored category has that id. This is also why the migration writes
  categories before sheets.
- `scenarios.dfy`: short request sequences, from an empty catalog or from
  one built directly, with their outcomes proved.

What the code guarantees, and what it does not:

- In the file-backed store, a sheet's categories are filtered against the
  stored categories only by the link update. Create and edit store the
  body's ids as sent (`Merge.CreateKeepsUnknownLinks`). Deleting all
  categories does not cascade, so a stored link can name a category that no
  longer exists (`Scenarios.DeleteAllLeavesDanglingLinks`). Hence
  `Service.Catalog.CreateSheet` keeps `Linked()` only when the new sheet's
  own links resolve, and `EditSheet` and `DeleteAllCategories` make no claim
  about `Linked()`. The relational store is different: every sheet save
  re-creates only the links to stored categories (`Relational.SavedLinks`),
  so its links never dangle.
- A sheet's categories are a list, not a set. The link update keeps request
  order and repeated ids (`Integrity.ValidLinksExample`).
- Nothing protects the creation time. An edit body that carries `criado_em`
  replaces it (`Merge.EditCanRewriteCreationTime`).
- Ids are allocated from the current maximum, not from a counter. After the
  record with the largest id is deleted, the next create gets that id again
  whenever the id just below it is still stored
  (`Ids.NextIdReusesDeletedMaximum`).

## Model

| member | source | states |
|---|---|---|
| `Records.CategoryIds` | main.py:107 | the id list has one entry per category, in collection order |
| `Records.SheetIds` | main.py:383 | the sheet id list `[p['id'] for p in planilhas]` has one entry per sheet, in collection order |
| `Ids.Max` | main.py:162 | `max` of a non-empty id list is one of the ids and no id exceeds it |
| `Ids.NextId` | main.py:162 | a new id is larger than every existing id; it is 1 for an empty collection; otherwise it is exactly one more than an existing id (the maximum) |
| `Ids.IndexOf` | main.py:178 | the lookup finds nothing exactly when no record has the id; otherwise it finds the first position holding the id |
| `Ids.IsFirstUnique` | main.py:199 | at most one position is the first with a given id, so a lookup is determined |
| `Ids.RemoveAt` | main.py:202 | `pop(idx)` shortens the list by one; records before the index keep their place and later ones shift down by one |
| `Ids.RemoveAtMultiset` | main.py:430 | a pop loses exactly the popped record |
| `Ids.AppendNextIdUnique` | main.py:383-389 | appending a record with the allocated id keeps ids unique |
| `Ids.RemoveAtUnique` | main.py:427-430 | with unique ids, removing the first match keeps ids unique and the id no longer occurs |
| `Ids.RemoveAtKeepsDuplicate` | main.py:199-202 | without unique ids, a single delete removes only the first record with the id, and a second one survives |
| `Ids.NextIdReusesDeletedMaximum` | main.py:162 | with unique ids, after deleting the record with the largest id, wherever it sits, the next create gets that same id again provided the id one below it is still stored |
| `Ids.NextIdAfterDeletingMaximum` | main.py:162 | with unique ids from 1 up, after deleting the record with the largest id the next id is never larger than the deleted one |
| `Ids.BelowDeletedMaximum` | main.py:162 | once a unique largest id is removed, every remaining id is below it |
| `Integrity.Filter` | main.py:127-130 | the comprehension never lengthens the list |
| `Integrity.FilterMembers` | main.py:127-130 | an element is in the result exactly when it is in the input and passes |
| `Integrity.FilterKeepsAll` | main.py:127-131 | nothing is dropped exactly when every element passes, and then the result is the input itself |
| `Integrity.FilterSingleton` | main.py:127-130 | on one element the comprehension keeps it exactly when it passes; with `FilterConcat` this determines the filter on every list |
| `Integrity.FilterConcat` | main.py:108 | filtering distributes over concatenation, so kept elements keep their relative order |
| `Integrity.FilterIdempotent` | main.py:108 | filtering twice is filtering once |
| `Integrity.FilterMultiset` | main.py:108 | a passing element is kept as often as it occurs, and a failing one not at all |
| `Integrity.ValidLinks` | main.py:107-108 | an id is in the new link list exactly when it was requested and names a stored category; nothing is dropped exactly when every requested id names one |
| `Integrity.ValidLinksExample` | main.py:107-108 | the link filter keeps request order and repeated ids and drops unknown ones: `[1, 99]` against category 1 gives `[1]` |
| `Integrity.References` | main.py:129 | a sheet references a category when it has a `categorias` key and the id is in that list |
| `Integrity.Cascade` | main.py:124-131 | a sheet survives exactly when it does not list the category; sheets without a `categorias` key always survive; the collection shrinks (and is written) exactly when some sheet listed the category |
| `Integrity.CascadeIdempotent` | main.py:127-130 | running the cascade again for the same category removes nothing more |
| `Integrity.CascadeConcat` | main.py:127-130 | the surviving sheets keep their original relative order |
| `Integrity.FilterKeepsSheetIdsUnique` | main.py:127-130 | filtering sheets keeps their ids unique |
| `Integrity.CascadeKeepsIdsUnique` | main.py:127-132 | the cascade keeps sheet ids unique |
| `Integrity.ValidLinksResolve` | main.py:107-109 | after a link update the sheet's links all name stored categories |
| `Integrity.CascadeKeepsLinksResolved` | main.py:199-205 | deleting a category and cascading keeps every surviving link pointing at a stored category |
| `Integrity.RemoveSheetKeepsLinksResolved` | main.py:427-431 | deleting one sheet keeps every remaining link resolved |
| `Merge.MergeCategoryIsShallowUpdate` | main.py:184-186 | after an edit, keys in the body take the body's values and other keys keep theirs; the id is the path id and `atualizado_em` is the edit time, whatever the body says |
| `Merge.MergeSheetIsShallowUpdate` | main.py:410-412 | the same shallow merge for sheets, including `categorias`, which an edit replaces unfiltered |
| `Merge.NewCategory` | main.py:162-165 | a created category keeps every key of the body, except that `id` is the allocated id and `criado_em` the creation time; a well-formed body gives a well-formed record |
| `Merge.NewSheet` | main.py:383-389 | a created sheet keeps every key of the body, except that `id` is the allocated id and `criado_em` the creation time; `categorias` is the body's list, or `[]` when the body has none |
| `Merge.MergeCategory` | main.py:184-186 | an edited category has the path id and the edit time as `atualizado_em`, whatever the body carries; merging well-formed record and body gives a well-formed record |
| `Merge.MergeSheet` | main.py:410-412 | an edited sheet has the path id and the edit time as `atualizado_em`, whatever the body carries; well-formedness is kept |
| `Merge.MergeCategoryComposes` | main.py:184-186 | two category edits in a row equal one edit whose body is the two bodies merged, the later winning |
| `Merge.MergeSheetComposes` | main.py:410-412 | two sheet edits in a row equal one edit with the merged body |
| `Merge.MergeCategoryRepeat` | main.py:184-186 | repeating a category edit changes only `atualizado_em` |
| `Merge.MergeSheetRepeat` | main.py:410-412 | repeating a sheet edit changes only `atualizado_em` |
| `Merge.EditCanRewriteCreationTime` | main.py:184-186 | an edit body carrying `criado_em` replaces the stored creation time |
| `Merge.CreateKeepsUnknownLinks` | main.py:384-389 | a created sheet keeps the body's category ids even when no category has them |
| `Service.Catalog.constructor` | main.py:98-99 | the catalog starts from the two loaded collections |
| `Service.Catalog.ListCategories` | main.py:140-143 | the listing returns the whole category collection and its size |
| `Service.Catalog.GetCategory` | main.py:147-152 | NotFound exactly when no category has the id; otherwise the first category with it |
| `Service.Catalog.CreateCategory` | main.py:156-169 | BadRequest with nothing changed and no event when there is no body or no `nome`; otherwise the body becomes a category with the next id and the creation time, is appended, and `categoria_criada` is emitted; ids stay unique and links stay resolved |
| `Service.Catalog.EditCategory` | main.py:175-190 | NotFound is checked before BadRequest for a missing or empty body, both with nothing changed; otherwise only the first match is replaced by its shallow merge, and `categoria_editada` is emitted; ids are unchanged |
| `Service.Catalog.DeleteCategory` | main.py:196-208 | NotFound with nothing changed; otherwise the first match is popped and returned, the cascade runs, and the events are `planilhas_atualizadas` (only if a sheet went) then `categoria_deletada`; ids stay unique and links stay resolved |
| `Service.Catalog.RemoveCategoryFromSheets` | main.py:119-134 | the sheets become the cascade of the old sheets, and the bulk event is emitted exactly when a sheet was removed |
| `Service.Catalog.DeleteAllCategories` | main.py:214-217 | categories become empty and sheets are untouched (no cascade); no event; a second call is again Done with the same state |
| `Service.Catalog.ListSheets` | main.py:353-360 | the listing returns the whole sheet collection and its size |
| `Service.Catalog.GetSheet` | main.py:365-371 | NotFound exactly when no sheet has the id; otherwise the first sheet with it |
| `Service.Catalog.CreateSheet` | main.py:376-393 | BadRequest with nothing changed when there is no body, `titulo` or `url`; otherwise the next id, the creation time and `[]` for missing `categorias`, appended, with `planilha_criada`; ids stay unique |
| `Service.Catalog.EditSheet` | main.py:400-416 | NotFound before BadRequest; otherwise only the first match is replaced by its shallow merge, with `planilha_editada`; ids are unchanged |
| `Service.Catalog.DeleteSheet` | main.py:423-434 | NotFound with nothing changed; otherwise the first match is popped and returned, with `planilha_deletada`; with unique ids the id is gone afterwards |
| `Service.Catalog.DeleteAllSheets` | main.py:441-445 | sheets become empty and categories are untouched; no event; idempotent |
| `Service.Catalog.UpdateSheetCategories` | main.py:95-114 | NotFound before BadRequest for a missing or non-list `categorias`; otherwise the first match gets exactly the filtered request as its links, replacing the old ones, plus the edit time; other sheets are unchanged; `planilha_editada` is emitted |
| `Relational.SavedLinks` | main.py:258-269 | the relational save links a sheet only to ids it lists that a stored category carries, so every saved link resolves; a sheet without `categorias` gets no links |
| `Relational.SavedLinksAgreeWithFilter` | main.py:258-269 | the relational save keeps the same links as the link-update filter, as a set |
| `Relational.SavedLinksLoseNothingWhenLinked` | main.py:266-269 | saving a sheet whose links resolve keeps all of them |
| `Relational.Migrate` | main.py:339-341 | migration writes the file's categories, then one link set per file sheet |
| `Relational.MigrateResolvesLinks` | main.py:339-341 | after migration a sheet keeps exactly those links that name a migrated category |
| `Relational.SheetsFirstLosesLinks` | main.py:340-341 | a link to a category that only the file holds is kept when the file's categories are written first, and would be lost if the sheets were resolved against the categories stored before the migration |
| `Scenarios.LinkDropsUnknownIds` | main.py:95-114 | from empty: category 1 and sheet 1 are created; linking sheet 1 to `[1, 99]` stores `[1]` |
| `Scenarios.CascadeDeletesLinkedSheet` | main.py:196-208 | deleting category 1 deletes the sheet linked to it, emits the bulk event then the deletion event, and the sheet then reads as NotFound |
| `Scenarios.RejectedCreateConsumesNoId` | main.py:159-162 | a create without a body is rejected and the next create still gets id 1 |
| `Scenarios.DeleteAllLeavesDanglingLinks` | main.py:214-216 | after all categories are deleted, a sheet still lists category 1 |

## Left out

- HTTP routing, the JSON response envelope, the messages and the numeric
  status codes. Replies are the tags `Created`, `Ok`, `Done`, `NotFound` and
  `BadRequest`. The static index page, the test endpoint and the startup
  banner are also left out.
- Socket.IO delivery and its threading mode. Each handler returns the
  names and payloads of the events it emits, in order.
- Failures caught by `except Exception`, which become a 500 reply: a body
  that is not JSON, a storage error. The model has no error path for them.
- File I/O and JSON encoding, including the reads that return an empty list
  for a missing or corrupt file. The file-backed store is two sequences that
  are replaced whole.
- The relational store beyond link resolution. Not modelled: loading
  ordered by id; dropping unknown keys and `atualizado_em` on save;
  resetting a sheet's `criado_em` on every save; and duplicate link ids,
  which the association table cannot hold. Also not modelled: the save
  commits the bulk delete before inserting and then swallows all errors, so
  a failed insert leaves the collection empty. The model makes no claim
  that a save is atomic.
- `Relational.Migrate`: the file reading, the guard that rejects the
  migration when no database is configured, and the counts in the reply are
  left out. Only the category-then-sheet order and its effect on links are
  modelled.
- Clock reads. Every time stamp is an opaque input.
- Database URL rewriting and CORS configuration.
- Races between concurrent read-modify-write requests (lost updates).
- A `categorias` value in a create or edit body that is not a list of
  integers. A null, a number or a string makes the cascade's membership
  test raise; a list of other values or an object simply does not contain
  the id, so the cascade keeps the sheet.
  Python's cross-type equality (`1.0 == 1`, `True == 1`) in the link filter
  is also not modelled.
- A request body that is a JSON value other than an object or null. Path
  ids are natural numbers because the route's integer converter accepts no
  sign.
