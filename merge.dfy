/** How a request body becomes a record: on create the body itself is the new
    record, with its `id` and `criado_em` overwritten; on edit the body is
    merged into the stored record with `dict.update`, after which the id is
    forced back to the path id and `atualizado_em` is set. */
module Merge {

  import opened Records

  /** One key of `dict.update`: a key the body carries wins, otherwise the
      record's own entry (or its absence) stays. */
  function Override<T>(current: Option<T>, supplied: Option<T>): Option<T> {
    if supplied.Some? then supplied else current
  }

  /** The category built from a create body: every key the body carries is
      kept, except that `id` becomes the allocated id and `criado_em` the
      creation time. */
  function NewCategory(b: CategoryBody, id: int, now: Timestamp): (r: Category)
    ensures r.id == id && r.criadoEm == Some(now)
    ensures r.nome == b.nome && r.atualizadoEm == b.atualizadoEm && r.extra == b.extra
    ensures b.WellFormed() ==> r.WellFormed()
  {
    Category(id, b.nome, Some(now), b.atualizadoEm, b.extra)
  }

  /** The sheet built from a create body: every key the body carries is
      kept, except that `id` becomes the allocated id and `criado_em` the
      creation time; a body without `categorias` gets an empty list. */
  function NewSheet(b: SheetBody, id: int, now: Timestamp): (r: Sheet)
    ensures r.id == id && r.criadoEm == Some(now)
    ensures r.titulo == b.titulo && r.url == b.url && r.imagem == b.imagem
    ensures r.atualizadoEm == b.atualizadoEm && r.extra == b.extra
    ensures r.categorias.Some?
    ensures b.categorias.Some? ==> r.categorias == b.categorias
    ensures b.categorias.None? ==> r.categorias == Some([])
    ensures b.WellFormed() ==> r.WellFormed()
  {
    Sheet(id, b.titulo, b.url, b.imagem, Some(b.categorias.GetOr([])), Some(now), b.atualizadoEm, b.extra)
  }

  /** The stored category after an edit with body `b` at path id `id`.
      Whatever the body says, the id is the path id and `atualizado_em` the
      edit time; a well-formed record stays well-formed. */
  function MergeCategory(c: Category, b: CategoryBody, id: int, now: Timestamp): (r: Category)
    ensures r.id == id && r.atualizadoEm == Some(now)
    ensures c.WellFormed() && b.WellFormed() ==> r.WellFormed()
  {
    Category(id, Override(c.nome, b.nome), Override(c.criadoEm, b.criadoEm), Some(now), c.extra + b.extra)
  }

  /** The stored sheet after an edit with body `b` at path id `id`. */
  function MergeSheet(s: Sheet, b: SheetBody, id: int, now: Timestamp): (r: Sheet)
    ensures r.id == id && r.atualizadoEm == Some(now)
    ensures s.WellFormed() && b.WellFormed() ==> r.WellFormed()
  {
    Sheet(id, Override(s.titulo, b.titulo), Override(s.url, b.url), Override(s.imagem, b.imagem),
          Override(s.categorias, b.categorias), Override(s.criadoEm, b.criadoEm), Some(now), s.extra + b.extra)
  }

  /** Two bodies applied one after the other, as one: the later one wins key
      by key. */
  function ThenCategory(b1: CategoryBody, b2: CategoryBody): CategoryBody {
    CategoryBody(Override(b1.id, b2.id), Override(b1.nome, b2.nome), Override(b1.criadoEm, b2.criadoEm),
                 Override(b1.atualizadoEm, b2.atualizadoEm), b1.extra + b2.extra)
  }

  function ThenSheet(b1: SheetBody, b2: SheetBody): SheetBody {
    SheetBody(Override(b1.id, b2.id), Override(b1.titulo, b2.titulo), Override(b1.url, b2.url),
              Override(b1.imagem, b2.imagem), Override(b1.categorias, b2.categorias),
              Override(b1.criadoEm, b2.criadoEm), Override(b1.atualizadoEm, b2.atualizadoEm),
              b1.extra + b2.extra)
  }

  /** The edit of a category is a shallow merge: every key the body carries
      takes the body's value, every other key keeps the stored one, and
      whatever `id` and `atualizado_em` the body carries, the result has the
      path id and the edit time. */
  lemma MergeCategoryIsShallowUpdate(c: Category, b: CategoryBody, id: int, now: Timestamp)
    ensures var r := MergeCategory(c, b, id, now);
      && r.id == id && r.atualizadoEm == Some(now)
      && (b.nome.Some? ==> r.nome == b.nome) && (b.nome.None? ==> r.nome == c.nome)
      && (b.criadoEm.Some? ==> r.criadoEm == b.criadoEm) && (b.criadoEm.None? ==> r.criadoEm == c.criadoEm)
      && r.extra.Keys == c.extra.Keys + b.extra.Keys
      && (forall k :: k in b.extra ==> r.extra[k] == b.extra[k])
      && (forall k :: k in c.extra && k !in b.extra ==> r.extra[k] == c.extra[k])
  {
  }

  lemma MergeSheetIsShallowUpdate(s: Sheet, b: SheetBody, id: int, now: Timestamp)
    ensures var r := MergeSheet(s, b, id, now);
      && r.id == id && r.atualizadoEm == Some(now)
      && (b.titulo.Some? ==> r.titulo == b.titulo) && (b.titulo.None? ==> r.titulo == s.titulo)
      && (b.url.Some? ==> r.url == b.url) && (b.url.None? ==> r.url == s.url)
      && (b.imagem.Some? ==> r.imagem == b.imagem) && (b.imagem.None? ==> r.imagem == s.imagem)
      && (b.categorias.Some? ==> r.categorias == b.categorias) && (b.categorias.None? ==> r.categorias == s.categorias)
      && (b.criadoEm.Some? ==> r.criadoEm == b.criadoEm) && (b.criadoEm.None? ==> r.criadoEm == s.criadoEm)
      && r.extra.Keys == s.extra.Keys + b.extra.Keys
      && (forall k :: k in b.extra ==> r.extra[k] == b.extra[k])
      && (forall k :: k in s.extra && k !in b.extra ==> r.extra[k] == s.extra[k])
  {
  }

  /** Two edits in a row are one edit with the combined body. */
  lemma MergeCategoryComposes(c: Category, b1: CategoryBody, b2: CategoryBody, id: int, t1: Timestamp, t2: Timestamp)
    ensures MergeCategory(MergeCategory(c, b1, id, t1), b2, id, t2) == MergeCategory(c, ThenCategory(b1, b2), id, t2)
  {
    assert (c.extra + b1.extra) + b2.extra == c.extra + (b1.extra + b2.extra);
  }

  lemma MergeSheetComposes(s: Sheet, b1: SheetBody, b2: SheetBody, id: int, t1: Timestamp, t2: Timestamp)
    ensures MergeSheet(MergeSheet(s, b1, id, t1), b2, id, t2) == MergeSheet(s, ThenSheet(b1, b2), id, t2)
  {
    assert (s.extra + b1.extra) + b2.extra == s.extra + (b1.extra + b2.extra);
  }

  /** Repeating an edit changes nothing but its time stamp. */
  lemma MergeCategoryRepeat(c: Category, b: CategoryBody, id: int, t1: Timestamp, t2: Timestamp)
    ensures MergeCategory(MergeCategory(c, b, id, t1), b, id, t2) == MergeCategory(c, b, id, t2)
  {
    MergeCategoryComposes(c, b, b, id, t1, t2);
    assert b.extra + b.extra == b.extra;
  }

  lemma MergeSheetRepeat(s: Sheet, b: SheetBody, id: int, t1: Timestamp, t2: Timestamp)
    ensures MergeSheet(MergeSheet(s, b, id, t1), b, id, t2) == MergeSheet(s, b, id, t2)
  {
    MergeSheetComposes(s, b, b, id, t1, t2);
    assert b.extra + b.extra == b.extra;
  }

  /** Nothing protects the creation time: an edit body carrying `criado_em`
      replaces it. */
  lemma EditCanRewriteCreationTime()
    ensures var c := Category(1, Some("Math"), Some("2024-01-01"), None, map[]);
      var b := CategoryBody(None, None, Some("1999-12-31"), None, map[]);
      MergeCategory(c, b, 1, "2024-02-02").criadoEm == Some("1999-12-31")
  {
  }

  /** A create body's own categories are stored as given: nothing filters
      them against the existing categories. */
  lemma CreateKeepsUnknownLinks()
    ensures var b := SheetBody(None, Some("Algebra"), Some("http://x"), None, Some([99]), None, None, map[]);
      NewSheet(b, 1, "2024-01-01").categorias == Some([99])
  {
  }
}
