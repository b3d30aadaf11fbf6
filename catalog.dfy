/** The request handlers of the catalog. Each one loads a whole collection,
    changes it in memory (append, pop, merge, filter) and writes the whole
    collection back; here the store is the two sequence fields of `Catalog`
    and writing back is assigning them. The handlers' replies and the events
    they push to connected clients are returned as values. */
module Service {

  import opened Records
  import opened Ids
  import opened Integrity
  import opened Merge

  class Catalog {
    /** The stored sheets ("planilhas"), in stored order. */
    var sheets: seq<Sheet>
    /** The stored categories ("categorias"), in stored order. */
    var cats: seq<Category>

    /** Ids are unique in both collections. Every handler keeps this. */
    ghost predicate IdsUnique()
      reads this
    {
      Unique(SheetIds(sheets)) && Unique(CategoryIds(cats))
    }

    /** Every link of every sheet names a stored category. */
    ghost predicate Linked()
      reads this
    {
      LinksResolve(sheets, CategoryIds(cats))
    }

    constructor (storedSheets: seq<Sheet>, storedCats: seq<Category>)
      ensures sheets == storedSheets && cats == storedCats
    {
      sheets := storedSheets;
      cats := storedCats;
    }

    // -------------------------------------------------------------------
    // Categories

    /** List all categories with their count. */
    method ListCategories() returns (total: nat, data: seq<Category>)
      ensures data == cats && total == |cats|
    {
      data := cats;
      total := |data|;
    }

    /** Get the first category with the id, or NotFound. */
    method GetCategory(id: nat) returns (r: Reply<Category>)
      ensures r == NotFound <==> id !in CategoryIds(cats)
      ensures r != NotFound ==> exists k :: IsFirst(CategoryIds(cats), id, k) && r == Ok(cats[k])
    {
      var idx := IndexOf(CategoryIds(cats), id);
      if idx.None? {
        return NotFound;
      }
      r := Ok(cats[idx.value]);
    }

    /** Create a category from the body: rejected unless the body is an object
        with a `nome` key; otherwise it gets the next id and the creation time
        and is appended. */
    method CreateCategory(body: Option<CategoryBody>, now: Timestamp) returns (r: Reply<Category>, events: seq<Event>)
      modifies this
      ensures sheets == old(sheets)
      ensures body.None? || body.value.nome.None? ==> r == BadRequest && events == [] && cats == old(cats)
      ensures body.Some? && body.value.nome.Some? ==>
        && r == Created(NewCategory(body.value, NextId(CategoryIds(old(cats))), now))
        && cats == old(cats) + [r.data]
        && events == [CategoriaCriada(r.data)]
      ensures r.Created? ==> forall c :: c in old(cats) ==> c.id < r.data.id
      ensures old(IdsUnique()) ==> IdsUnique()
      ensures old(Linked()) ==> Linked()
    {
      if body.None? || body.value.nome.None? {
        return BadRequest, [];
      }
      var ids := CategoryIds(cats);
      var nova := NewCategory(body.value, NextId(ids), now);
      cats := cats + [nova];
      r, events := Created(nova), [CategoriaCriada(nova)];
      assert CategoryIds(cats) == ids + [NextId(ids)];
      if Unique(ids) {
        AppendNextIdUnique(ids);
      }
      forall c | c in old(cats) ensures c.id < nova.id {
        var i :| 0 <= i < |old(cats)| && old(cats)[i] == c;
        assert ids[i] in ids;
      }
    }

    /** Edit the first category with the id: NotFound first, then BadRequest
        for a missing or empty body; otherwise the body is merged in, with the
        path id and the edit time. */
    method EditCategory(id: nat, body: Option<CategoryBody>, now: Timestamp) returns (r: Reply<Category>, events: seq<Event>)
      modifies this
      ensures sheets == old(sheets)
      ensures id !in CategoryIds(old(cats)) ==> r == NotFound && events == [] && cats == old(cats)
      ensures id in CategoryIds(old(cats)) && (body.None? || body.value.IsEmpty()) ==>
        r == BadRequest && events == [] && cats == old(cats)
      ensures id in CategoryIds(old(cats)) && body.Some? && !body.value.IsEmpty() ==>
        exists k :: IsFirst(CategoryIds(old(cats)), id, k)
          && r == Ok(MergeCategory(old(cats)[k], body.value, id, now))
          && cats == old(cats)[k := r.data]
          && events == [CategoriaEditada(r.data)]
      ensures CategoryIds(cats) == CategoryIds(old(cats))
      ensures old(IdsUnique()) ==> IdsUnique()
      ensures old(Linked()) ==> Linked()
    {
      var idx := IndexOf(CategoryIds(cats), id);
      if idx.None? {
        return NotFound, [];
      }
      if body.None? || body.value.IsEmpty() {
        return BadRequest, [];
      }
      var k := idx.value;
      var editada := MergeCategory(cats[k], body.value, id, now);
      cats := cats[k := editada];
      r, events := Ok(editada), [CategoriaEditada(editada)];
      assert IsFirst(CategoryIds(old(cats)), id, k);
      assert CategoryIds(cats) == CategoryIds(old(cats));
    }

    /** Delete the first category with the id, then delete every sheet that
        references it (the cascade), then announce the deletion. */
    method DeleteCategory(id: nat) returns (r: Reply<Category>, events: seq<Event>)
      modifies this
      ensures id !in CategoryIds(old(cats)) ==>
        r == NotFound && events == [] && cats == old(cats) && sheets == old(sheets)
      ensures id in CategoryIds(old(cats)) ==>
        && (exists k :: IsFirst(CategoryIds(old(cats)), id, k) && r == Ok(old(cats)[k]) && cats == RemoveAt(old(cats), k))
        && sheets == Cascade(old(sheets), id)
        && events == (if |sheets| < |old(sheets)| then [PlanilhasAtualizadas] else []) + [CategoriaDeletada(id)]
      ensures old(IdsUnique()) ==> IdsUnique()
      ensures old(Linked()) ==> Linked()
    {
      var idx := IndexOf(CategoryIds(cats), id);
      if idx.None? {
        return NotFound, [];
      }
      var k := idx.value;
      var removida := cats[k];
      cats := RemoveAt(cats, k);
      var cascaded := RemoveCategoryFromSheets(id);
      r, events := Ok(removida), cascaded + [CategoriaDeletada(id)];
      assert IsFirst(CategoryIds(old(cats)), id, k);
      CategoryIdsRemoveAt(old(cats), k);
      if Unique(CategoryIds(old(cats))) {
        RemoveAtUnique(CategoryIds(old(cats)), k);
      }
      if Unique(SheetIds(old(sheets))) {
        CascadeKeepsIdsUnique(old(sheets), id);
      }
      if LinksResolve(old(sheets), CategoryIds(old(cats))) {
        CascadeKeepsLinksResolved(old(sheets), old(cats), k);
      }
    }

    /** Drop every sheet that lists category `c`. Only when something was
        dropped is the collection written and the bulk event sent. */
    method RemoveCategoryFromSheets(c: int) returns (events: seq<Event>)
      modifies this
      ensures cats == old(cats)
      ensures sheets == Cascade(old(sheets), c)
      ensures events == if |sheets| < |old(sheets)| then [PlanilhasAtualizadas] else []
    {
      var filtradas := Cascade(sheets, c);
      if |filtradas| != |sheets| {
        sheets := filtradas;
        events := [PlanilhasAtualizadas];
      } else {
        events := [];
      }
    }

    /** Replace the category collection with the empty one. No cascade: the
        sheets, and their links, stay as they are; no event is sent. */
    method DeleteAllCategories() returns (r: Reply<Category>, events: seq<Event>)
      modifies this
      ensures cats == [] && sheets == old(sheets)
      ensures r == Done && events == []
      ensures old(IdsUnique()) ==> IdsUnique()
    {
      cats := [];
      r, events := Done, [];
    }

    // -------------------------------------------------------------------
    // Sheets

    /** List all sheets with their count. */
    method ListSheets() returns (total: nat, data: seq<Sheet>)
      ensures data == sheets && total == |sheets|
    {
      data := sheets;
      total := |data|;
    }

    /** Get the first sheet with the id, or NotFound. */
    method GetSheet(id: nat) returns (r: Reply<Sheet>)
      ensures r == NotFound <==> id !in SheetIds(sheets)
      ensures r != NotFound ==> exists k :: IsFirst(SheetIds(sheets), id, k) && r == Ok(sheets[k])
    {
      var idx := IndexOf(SheetIds(sheets), id);
      if idx.None? {
        return NotFound;
      }
      r := Ok(sheets[idx.value]);
    }

    /** Create a sheet from the body: rejected unless the body is an object
        with `titulo` and `url` keys; otherwise it gets the next id, the
        creation time and, when it has none, an empty category list. Its
        category ids are stored as sent. */
    method CreateSheet(body: Option<SheetBody>, now: Timestamp) returns (r: Reply<Sheet>, events: seq<Event>)
      modifies this
      ensures cats == old(cats)
      ensures body.None? || body.value.titulo.None? || body.value.url.None? ==>
        r == BadRequest && events == [] && sheets == old(sheets)
      ensures body.Some? && body.value.titulo.Some? && body.value.url.Some? ==>
        && r == Created(NewSheet(body.value, NextId(SheetIds(old(sheets))), now))
        && sheets == old(sheets) + [r.data]
        && events == [PlanilhaCriada(r.data)]
      ensures r.Created? ==> forall s :: s in old(sheets) ==> s.id < r.data.id
      ensures r.Created? ==> r.data.categorias == Some(body.value.categorias.GetOr([]))
      ensures old(IdsUnique()) ==> IdsUnique()
      ensures r.Created? && LinksWithin(r.data, CategoryIds(cats)) && old(Linked()) ==> Linked()
    {
      if body.None? || body.value.titulo.None? || body.value.url.None? {
        return BadRequest, [];
      }
      var ids := SheetIds(sheets);
      var nova := NewSheet(body.value, NextId(ids), now);
      sheets := sheets + [nova];
      r, events := Created(nova), [PlanilhaCriada(nova)];
      assert SheetIds(sheets) == ids + [NextId(ids)];
      if Unique(ids) {
        AppendNextIdUnique(ids);
      }
      forall s | s in old(sheets) ensures s.id < nova.id {
        var i :| 0 <= i < |old(sheets)| && old(sheets)[i] == s;
        assert ids[i] in ids;
      }
    }

    /** Edit the first sheet with the id: NotFound first, then BadRequest for
        a missing or empty body; otherwise the body is merged in, with the
        path id and the edit time. */
    method EditSheet(id: nat, body: Option<SheetBody>, now: Timestamp) returns (r: Reply<Sheet>, events: seq<Event>)
      modifies this
      ensures cats == old(cats)
      ensures id !in SheetIds(old(sheets)) ==> r == NotFound && events == [] && sheets == old(sheets)
      ensures id in SheetIds(old(sheets)) && (body.None? || body.value.IsEmpty()) ==>
        r == BadRequest && events == [] && sheets == old(sheets)
      ensures id in SheetIds(old(sheets)) && body.Some? && !body.value.IsEmpty() ==>
        exists k :: IsFirst(SheetIds(old(sheets)), id, k)
          && r == Ok(MergeSheet(old(sheets)[k], body.value, id, now))
          && sheets == old(sheets)[k := r.data]
          && events == [PlanilhaEditada(r.data)]
      ensures SheetIds(sheets) == SheetIds(old(sheets))
      ensures old(IdsUnique()) ==> IdsUnique()
    {
      var idx := IndexOf(SheetIds(sheets), id);
      if idx.None? {
        return NotFound, [];
      }
      if body.None? || body.value.IsEmpty() {
        return BadRequest, [];
      }
      var k := idx.value;
      var editada := MergeSheet(sheets[k], body.value, id, now);
      sheets := sheets[k := editada];
      r, events := Ok(editada), [PlanilhaEditada(editada)];
      assert IsFirst(SheetIds(old(sheets)), id, k);
      assert SheetIds(sheets) == SheetIds(old(sheets));
    }

    /** Delete the first sheet with the id. */
    method DeleteSheet(id: nat) returns (r: Reply<Sheet>, events: seq<Event>)
      modifies this
      ensures cats == old(cats)
      ensures id !in SheetIds(old(sheets)) ==> r == NotFound && events == [] && sheets == old(sheets)
      ensures id in SheetIds(old(sheets)) ==>
        && (exists k :: IsFirst(SheetIds(old(sheets)), id, k) && r == Ok(old(sheets)[k]) && sheets == RemoveAt(old(sheets), k))
        && events == [PlanilhaDeletada(id)]
      ensures old(IdsUnique()) ==> IdsUnique() && id !in SheetIds(sheets)
      ensures old(Linked()) ==> Linked()
    {
      var idx := IndexOf(SheetIds(sheets), id);
      if idx.None? {
        return NotFound, [];
      }
      var k := idx.value;
      var removida := sheets[k];
      sheets := RemoveAt(sheets, k);
      r, events := Ok(removida), [PlanilhaDeletada(id)];
      assert IsFirst(SheetIds(old(sheets)), id, k);
      assert SheetIds(sheets) == RemoveAt(SheetIds(old(sheets)), k);
      if Unique(SheetIds(old(sheets))) {
        RemoveAtUnique(SheetIds(old(sheets)), k);
      }
      if LinksResolve(old(sheets), CategoryIds(cats)) {
        RemoveSheetKeepsLinksResolved(old(sheets), k, CategoryIds(cats));
      }
    }

    /** Replace the sheet collection with the empty one; no event is sent. */
    method DeleteAllSheets() returns (r: Reply<Sheet>, events: seq<Event>)
      modifies this
      ensures sheets == [] && cats == old(cats)
      ensures r == Done && events == []
      ensures old(IdsUnique()) ==> IdsUnique()
      ensures Linked()
    {
      sheets := [];
      r, events := Done, [];
    }

    /** Replace the category list of the first sheet with the id: NotFound
        first, then BadRequest unless the request carries a list; the new list
        is the requested ids that name a stored category, in request order. */
    method UpdateSheetCategories(id: nat, requested: LinksField, now: Timestamp) returns (r: Reply<Sheet>, events: seq<Event>)
      modifies this
      ensures cats == old(cats)
      ensures id !in SheetIds(old(sheets)) ==> r == NotFound && events == [] && sheets == old(sheets)
      ensures id in SheetIds(old(sheets)) && !requested.IdList? ==>
        r == BadRequest && events == [] && sheets == old(sheets)
      ensures id in SheetIds(old(sheets)) && requested.IdList? ==>
        exists k :: IsFirst(SheetIds(old(sheets)), id, k)
          && r == Ok(old(sheets)[k].(categorias := Some(ValidLinks(requested.ids, CategoryIds(cats))),
                                     atualizadoEm := Some(now)))
          && sheets == old(sheets)[k := r.data]
          && events == [PlanilhaEditada(r.data)]
      ensures r.Ok? ==> LinksWithin(r.data, CategoryIds(cats))
      ensures SheetIds(sheets) == SheetIds(old(sheets))
      ensures old(IdsUnique()) ==> IdsUnique()
      ensures old(Linked()) ==> Linked()
    {
      var idx := IndexOf(SheetIds(sheets), id);
      if idx.None? {
        return NotFound, [];
      }
      if !requested.IdList? {
        return BadRequest, [];
      }
      var k := idx.value;
      var validos := CategoryIds(cats);
      var editada := sheets[k].(categorias := Some(ValidLinks(requested.ids, validos)), atualizadoEm := Some(now));
      sheets := sheets[k := editada];
      r, events := Ok(editada), [PlanilhaEditada(editada)];
      assert IsFirst(SheetIds(old(sheets)), id, k);
      assert SheetIds(sheets) == SheetIds(old(sheets));
      assert LinksWithin(editada, validos);
    }
  }
}
