/** Short request sequences against a catalog, with the outcomes the
    handlers' contracts fix for them. */
module Scenarios {

  import opened Records
  import opened Integrity
  import opened Service

  /** Create category "Math" (id 1), create sheet "Algebra" (id 1, no
      links), then link it to [1, 99]: 99 names no category and is dropped. */
  method LinkDropsUnknownIds() returns (sheet: Reply<Sheet>)
    ensures sheet.Ok? && sheet.data.id == 1 && sheet.data.categorias == Some([1])
  {
    var catalog := new Catalog([], []);
    var c, _ := catalog.CreateCategory(Some(CategoryBody(None, Some("Math"), None, None, map[])), "t1");
    assert catalog.cats == [c.data] && c.data.id == 1;
    var s, _ := catalog.CreateSheet(Some(SheetBody(None, Some("Algebra"), Some("http://x"), None, None, None, None, map[])), "t2");
    assert catalog.sheets == [s.data] && s.data.id == 1 && s.data.categorias == Some([]);
    assert SheetIds(catalog.sheets) == [1] && CategoryIds(catalog.cats) == [1];
    var linkEvents;
    sheet, linkEvents := catalog.UpdateSheetCategories(1, IdList([1, 99]), "t3");
    assert sheet.Ok? && sheet.data.categorias == Some(ValidLinks([1, 99], [1]));
    ValidLinksExample();
  }

  /** From a catalog holding category 1 and one sheet linked to it (the state
      the previous sequence ends in, built directly), deleting category 1
      deletes the sheet: one bulk event, then the deletion event, and the
      sheet can no longer be read. */
  method CascadeDeletesLinkedSheet() returns (events: seq<Event>, afterDelete: Reply<Sheet>)
    ensures events == [PlanilhasAtualizadas, CategoriaDeletada(1)]
    ensures afterDelete == NotFound
  {
    var math := Category(1, Some("Math"), Some("t1"), None, map[]);
    var algebra := Sheet(1, Some("Algebra"), Some("http://x"), None, Some([1]), Some("t2"), Some("t3"), map[]);
    var catalog := new Catalog([algebra], [math]);
    assert Cascade([algebra], 1) == [] by {
      assert algebra !in Cascade([algebra], 1);
    }
    assert CategoryIds(catalog.cats)[0] == 1;
    var deleted;
    deleted, events := catalog.DeleteCategory(1);
    assert catalog.sheets == [];
    afterDelete := catalog.GetSheet(1);
  }

  /** A create without a body is rejected and consumes no id: the next
      create still gets id 1. */
  method RejectedCreateConsumesNoId() returns (first: Reply<Category>, second: Reply<Category>)
    ensures first == BadRequest
    ensures second.Created? && second.data.id == 1
  {
    var catalog := new Catalog([], []);
    var ev1, ev2;
    first, ev1 := catalog.CreateCategory(None, "t1");
    second, ev2 := catalog.CreateCategory(Some(CategoryBody(None, Some("Math"), None, None, map[])), "t2");
  }

  /** Deleting every category leaves a sheet linked to a category that no
      longer exists: the bulk delete does not cascade. */
  method DeleteAllLeavesDanglingLinks() returns (kept: Reply<Sheet>)
    ensures kept.Ok? && kept.data.categorias == Some([1])
  {
    var catalog := new Catalog([], []);
    var c, _ := catalog.CreateCategory(Some(CategoryBody(None, Some("Math"), None, None, map[])), "t1");
    var s, _ := catalog.CreateSheet(Some(SheetBody(None, Some("Algebra"), Some("http://x"), None, Some([1]), None, None, map[])), "t2");
    assert SheetIds(catalog.sheets) == [1];
    var d, _ := catalog.DeleteAllCategories();
    kept := catalog.GetSheet(1);
    assert catalog.sheets == [s.data];
  }
}
