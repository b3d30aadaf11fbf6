/** The two record kinds of the catalog (sheets and categories), the request
    bodies that create and update them, the replies and the real-time events.

    A record is a JSON object: a named field is `Some(v)` when its key is
    present and `None` when it is absent, and every key other than the named
    ones is kept in `extra`. A map `extra` that holds one of the named keys
    describes no JSON object; `WellFormed()` excludes it. Field values are stored and echoed but never
    inspected by the handlers, so they are carried as opaque text. */
module Records {

  datatype Option<T> = None | Some(value: T) {
    function GetOr(default: T): T {
      if Some? then value else default
    }
  }

  /** A JSON value the catalog stores without looking at it. */
  type Value = string

  /** An ISO-8601 time stamp, supplied by the caller of each handler. */
  type Timestamp = string

  /** The keys a category or its body names. */
  const CategoryKeys: set<string> := {"id", "nome", "criado_em", "atualizado_em"}

  /** The keys a sheet or its body names. */
  const SheetKeys: set<string> := {"id", "titulo", "url", "imagem", "categorias", "criado_em", "atualizado_em"}

  /** A category ("categoria"): `id`, `nome`, `criado_em`, `atualizado_em`. */
  datatype Category = Category(
    id: int,
    nome: Option<Value>,
    criadoEm: Option<Timestamp>,
    atualizadoEm: Option<Timestamp>,
    extra: map<string, Value>)
  {
    /** `extra` holds only keys the record does not name. */
    predicate WellFormed() {
      extra.Keys !! CategoryKeys
    }
  }

  /** A sheet ("planilha"): `id`, `titulo`, `url`, `imagem`, the list of
      category ids `categorias`, `criado_em`, `atualizado_em`. */
  datatype Sheet = Sheet(
    id: int,
    titulo: Option<Value>,
    url: Option<Value>,
    imagem: Option<Value>,
    categorias: Option<seq<int>>,
    criadoEm: Option<Timestamp>,
    atualizadoEm: Option<Timestamp>,
    extra: map<string, Value>)
  {
    predicate WellFormed() {
      extra.Keys !! SheetKeys
    }
  }

  /** The JSON object sent to create or edit a category. Its `id` may hold any
      value: the handlers overwrite it. */
  datatype CategoryBody = CategoryBody(
    id: Option<Value>,
    nome: Option<Value>,
    criadoEm: Option<Timestamp>,
    atualizadoEm: Option<Timestamp>,
    extra: map<string, Value>)
  {
    /** An empty object, which Python treats as false. */
    predicate IsEmpty() {
      id.None? && nome.None? && criadoEm.None? && atualizadoEm.None? && extra == map[]
    }

    predicate WellFormed() {
      extra.Keys !! CategoryKeys
    }
  }

  /** The JSON object sent to create or edit a sheet. */
  datatype SheetBody = SheetBody(
    id: Option<Value>,
    titulo: Option<Value>,
    url: Option<Value>,
    imagem: Option<Value>,
    categorias: Option<seq<int>>,
    criadoEm: Option<Timestamp>,
    atualizadoEm: Option<Timestamp>,
    extra: map<string, Value>)
  {
    predicate IsEmpty() {
      && id.None? && titulo.None? && url.None? && imagem.None? && categorias.None?
      && criadoEm.None? && atualizadoEm.None? && extra == map[]
    }

    predicate WellFormed() {
      extra.Keys !! SheetKeys
    }
  }

  /** What the link-update request carries under `categorias`: no such key
      (or no body at all), a value that is not a list, or a list of ids. */
  datatype LinksField = Absent | NotAList | IdList(ids: seq<int>)

  /** The events pushed to every connected client. */
  datatype Event =
    | CategoriaCriada(category: Category)
    | CategoriaEditada(category: Category)
    | CategoriaDeletada(id: int)
    | PlanilhaCriada(sheet: Sheet)
    | PlanilhaEditada(sheet: Sheet)
    | PlanilhaDeletada(id: int)
    | PlanilhasAtualizadas

  /** The outcome of a handler, without the HTTP envelope: `Created` and `Ok`
      carry the record, `Done` is a success without one. */
  datatype Reply<T> = Created(data: T) | Ok(data: T) | Done | NotFound | BadRequest

  /** The ids of a category collection, in order. */
  function CategoryIds(cats: seq<Category>): (ids: seq<int>)
    ensures |ids| == |cats|
    ensures forall i :: 0 <= i < |cats| ==> ids[i] == cats[i].id
  {
    seq(|cats|, i requires 0 <= i < |cats| => cats[i].id)
  }

  /** The ids of a sheet collection, in order. */
  function SheetIds(sheets: seq<Sheet>): (ids: seq<int>)
    ensures |ids| == |sheets|
    ensures forall i :: 0 <= i < |sheets| ==> ids[i] == sheets[i].id
  {
    seq(|sheets|, i requires 0 <= i < |sheets| => sheets[i].id)
  }
}
