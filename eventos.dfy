/**
 * The `Evento` row, the JSON body a client sends to create or update one,
 * and the merge-patch rule of the update handler.
 */
module Eventos {
  import opened Wrappers
  import opened Enums

  /** Width of the `String(100)` columns: `nombre`, `lugar`, `direccion`, the e-mails. */
  const MaxText := 100
  /** Width of the `String(50)` password column. */
  const MaxPw := 50
  /** Largest value of the 32-bit `Integer` id column and of the sequence that fills it. */
  const MaxId := 0x7FFF_FFFF

  /**
   * A row of the event table. Timestamps are kept as integers supplied by
   * the client; `usuarioEmail` is the owning user.
   */
  datatype Evento = Evento(
    id: int,
    nombre: string,
    categoria: Categoria,
    lugar: string,
    direccion: string,
    fechaInicio: int,
    fechaFin: int,
    forma: Forma,
    usuarioEmail: string)

  /** The row's text fields fit their `String(100)` columns. */
  predicate Fits(e: Evento) {
    |e.nombre| <= MaxText && |e.lugar| <= MaxText && |e.direccion| <= MaxText
    && |e.usuarioEmail| <= MaxText
  }

  /**
   * What a `varchar(n)` column stores for `s`. A value longer than `n` is
   * refused unless every character past the `n`th is a space; then it is
   * cut to its first `n` characters.
   */
  function ColumnValue(s: string, n: nat): (r: Option<string>)
    ensures r.Some? <==> |s| <= n || forall i :: n <= i < |s| ==> s[i] == ' '
    ensures r.Some? ==> |r.value| <= n && r.value <= s
    ensures |s| <= n ==> r == Some(s)
    ensures r.Some? && |s| > n ==> r.value + s[n..] == s
  {
    if |s| <= n then Some(s)
    else if forall i | n <= i < |s| :: s[i] == ' ' then Some(s[..n])
    else None
  }

  /**
   * The row as the event table stores it: each text field goes through its
   * column, and the row is refused when one of them is.
   */
  function StoreRow(e: Evento): (r: Option<Evento>)
    ensures r.Some? <==>
      && ColumnValue(e.nombre, MaxText).Some? && ColumnValue(e.lugar, MaxText).Some?
      && ColumnValue(e.direccion, MaxText).Some? && ColumnValue(e.usuarioEmail, MaxText).Some?
    ensures r.Some? ==> Fits(r.value)
    ensures r.Some? ==>
      && r.value.id == e.id && r.value.categoria == e.categoria && r.value.forma == e.forma
      && r.value.fechaInicio == e.fechaInicio && r.value.fechaFin == e.fechaFin
      && r.value.nombre <= e.nombre && r.value.lugar <= e.lugar
      && r.value.direccion <= e.direccion && r.value.usuarioEmail <= e.usuarioEmail
    ensures r.Some? ==>
      && r.value.nombre == ColumnValue(e.nombre, MaxText).value
      && r.value.lugar == ColumnValue(e.lugar, MaxText).value
      && r.value.direccion == ColumnValue(e.direccion, MaxText).value
      && r.value.usuarioEmail == ColumnValue(e.usuarioEmail, MaxText).value
    ensures Fits(e) ==> r == Some(e)
  {
    var nombre := ColumnValue(e.nombre, MaxText);
    var lugar := ColumnValue(e.lugar, MaxText);
    var direccion := ColumnValue(e.direccion, MaxText);
    var owner := ColumnValue(e.usuarioEmail, MaxText);
    if nombre.None? || lugar.None? || direccion.None? || owner.None? then None
    else Some(e.(nombre := nombre.value, lugar := lugar.value,
                 direccion := direccion.value, usuarioEmail := owner.value))
  }

  /** A 100-character name followed by a space is stored without the space. */
  lemma TrailingSpacesCut(e: Evento)
    requires |e.nombre| == MaxText && |e.lugar| <= MaxText && |e.direccion| <= MaxText
    requires |e.usuarioEmail| <= MaxText
    ensures StoreRow(e.(nombre := e.nombre + " ")) == Some(e)
  {
    var padded := e.nombre + " ";
    assert padded[..MaxText] == e.nombre;
    assert forall i :: MaxText <= i < |padded| ==> padded[i] == ' ';
  }

  /**
   * The JSON object of a create or update request: `None` when the key is
   * absent. The enum fields arrive as label strings. `id` and
   * `usuario_email` may be sent but no handler reads them.
   */
  datatype EventoBody = EventoBody(
    id: Option<int>,
    nombre: Option<string>,
    categoria: Option<string>,
    lugar: Option<string>,
    direccion: Option<string>,
    fechaInicio: Option<int>,
    fechaFin: Option<int>,
    forma: Option<string>,
    usuarioEmail: Option<string>)

  /** The writable fields of a request body, with the enum labels read. */
  datatype Patch = Patch(
    nombre: Option<string>,
    categoria: Option<Categoria>,
    lugar: Option<string>,
    direccion: Option<string>,
    fechaInicio: Option<int>,
    fechaFin: Option<int>,
    forma: Option<Forma>)

  const EmptyPatch := Patch(None, None, None, None, None, None, None)

  /** Every one of the seven writable keys is present, as creation demands. */
  predicate Complete(p: Patch) {
    p.nombre.Some? && p.categoria.Some? && p.lugar.Some? && p.direccion.Some?
    && p.fechaInicio.Some? && p.fechaFin.Some? && p.forma.Some?
  }

  /**
   * Reads the enum labels of a body. Fails exactly when a present
   * `categoria` or `forma` is not one of the enum's labels; the other
   * fields pass through, and `id` and `usuario_email` are dropped.
   */
  function ParsePatch(b: EventoBody): (r: Option<Patch>)
    ensures r.Some? <==>
      (b.categoria.Some? ==> ParseCategoria(b.categoria.value).Some?)
      && (b.forma.Some? ==> ParseForma(b.forma.value).Some?)
    ensures r.Some? ==>
      && r.value.nombre == b.nombre && r.value.lugar == b.lugar
      && r.value.direccion == b.direccion
      && r.value.fechaInicio == b.fechaInicio && r.value.fechaFin == b.fechaFin
      && (r.value.categoria.Some? <==> b.categoria.Some?)
      && (r.value.categoria.Some? ==> CategoriaLabel(r.value.categoria.value) == b.categoria.value)
      && (r.value.forma.Some? <==> b.forma.Some?)
      && (r.value.forma.Some? ==> FormaLabel(r.value.forma.value) == b.forma.value)
  {
    var cat := if b.categoria.Some? then ParseCategoria(b.categoria.value) else None;
    var form := if b.forma.Some? then ParseForma(b.forma.value) else None;
    if (b.categoria.Some? && cat.None?) || (b.forma.Some? && form.None?) then None
    else Some(Patch(b.nombre, cat, b.lugar, b.direccion, b.fechaInicio, b.fechaFin, form))
  }

  /**
   * Merge patch: every field present in `p` overwrites the row's, every
   * absent field keeps its value; `id` and the owner are never touched.
   */
  function Merge(e: Evento, p: Patch): (r: Evento)
    ensures r.id == e.id && r.usuarioEmail == e.usuarioEmail
    ensures r.nombre == p.nombre.GetOr(e.nombre) && r.categoria == p.categoria.GetOr(e.categoria)
    ensures r.lugar == p.lugar.GetOr(e.lugar) && r.direccion == p.direccion.GetOr(e.direccion)
    ensures r.fechaInicio == p.fechaInicio.GetOr(e.fechaInicio)
    ensures r.fechaFin == p.fechaFin.GetOr(e.fechaFin) && r.forma == p.forma.GetOr(e.forma)
  {
    e.(nombre := p.nombre.GetOr(e.nombre),
       categoria := p.categoria.GetOr(e.categoria),
       lugar := p.lugar.GetOr(e.lugar),
       direccion := p.direccion.GetOr(e.direccion),
       fechaInicio := p.fechaInicio.GetOr(e.fechaInicio),
       fechaFin := p.fechaFin.GetOr(e.fechaFin),
       forma := p.forma.GetOr(e.forma))
  }

  /** The row a create request builds: the seven fields from the body, the owner from the caller. */
  function Created(id: int, p: Patch, owner: string): (e: Evento)
    requires Complete(p)
    ensures e.id == id && e.usuarioEmail == owner
    ensures Merge(e, p) == e
  {
    Evento(id, p.nombre.value, p.categoria.value, p.lugar.value, p.direccion.value,
           p.fechaInicio.value, p.fechaFin.value, p.forma.value, owner)
  }

  /** `q` applied after `p`: a key of `q` wins, otherwise the key of `p`. */
  function Then(p: Patch, q: Patch): Patch {
    Patch(if q.nombre.Some? then q.nombre else p.nombre,
          if q.categoria.Some? then q.categoria else p.categoria,
          if q.lugar.Some? then q.lugar else p.lugar,
          if q.direccion.Some? then q.direccion else p.direccion,
          if q.fechaInicio.Some? then q.fechaInicio else p.fechaInicio,
          if q.fechaFin.Some? then q.fechaFin else p.fechaFin,
          if q.forma.Some? then q.forma else p.forma)
  }

  /** An empty body changes nothing. */
  lemma MergeEmpty(e: Evento)
    ensures Merge(e, EmptyPatch) == e
  {
  }

  /** Sending the same patch twice is the same as sending it once. */
  lemma MergeIdempotent(e: Evento, p: Patch)
    ensures Merge(Merge(e, p), p) == Merge(e, p)
  {
  }

  /** Two updates in a row are one update with the later keys winning. */
  lemma MergeThen(e: Evento, p: Patch, q: Patch)
    ensures Merge(Merge(e, p), q) == Merge(e, Then(p, q))
  {
  }

  /** A body carrying only `lugar` changes only `lugar`. */
  lemma MergeLugarOnly(e: Evento, x: string)
    ensures Merge(e, EmptyPatch.(lugar := Some(x))) == e.(lugar := x)
  {
  }

  /** A patch carrying all seven keys replaces the row by the one a create with it would build. */
  lemma MergeComplete(e: Evento, p: Patch)
    requires Complete(p)
    ensures Merge(e, p) == Created(e.id, p, e.usuarioEmail)
  {
  }
}
