/**
 * The two closed enumerations of an event, `EventoCat` and `EventoForm`.
 * On the wire each value is written as its value string (the schema uses
 * `by_value=True`); the value strings coincide with the member names.
 */
module Enums {
  import opened Wrappers

  /** The kind of event. */
  datatype Categoria = CONFERENCIA | SEMINARIO | CONGRESO | CURSO

  /** How the event is attended. */
  datatype Forma = PRESENCIAL | VIRTUAL

  /** The value strings of `EventoCat`, the only category labels on the wire. */
  const CategoriaLabels: set<string> := {"CONFERENCIA", "SEMINARIO", "CONGRESO", "CURSO"}

  /** The value strings of `EventoForm`, the only modality labels on the wire. */
  const FormaLabels: set<string> := {"PRESENCIAL", "VIRTUAL"}

  /** Serialises a category by value. */
  function CategoriaLabel(c: Categoria): (s: string)
    ensures s in CategoriaLabels
  {
    match c
    case CONFERENCIA => "CONFERENCIA"
    case SEMINARIO => "SEMINARIO"
    case CONGRESO => "CONGRESO"
    case CURSO => "CURSO"
  }

  /** Serialises a modality by value. */
  function FormaLabel(f: Forma): (s: string)
    ensures s in FormaLabels
  {
    match f
    case PRESENCIAL => "PRESENCIAL"
    case VIRTUAL => "VIRTUAL"
  }

  /** Reads a category label; any string that is not one of the four labels is refused. */
  function ParseCategoria(s: string): (r: Option<Categoria>)
    ensures r.Some? ==> CategoriaLabel(r.value) == s
    ensures r.None? ==> forall c :: CategoriaLabel(c) != s
    ensures r.Some? <==> s in CategoriaLabels
  {
    if s == "CONFERENCIA" then Some(CONFERENCIA)
    else if s == "SEMINARIO" then Some(SEMINARIO)
    else if s == "CONGRESO" then Some(CONGRESO)
    else if s == "CURSO" then Some(CURSO)
    else None
  }

  /** Reads a modality label; any string that is not one of the two labels is refused. */
  function ParseForma(s: string): (r: Option<Forma>)
    ensures r.Some? ==> FormaLabel(r.value) == s
    ensures r.None? ==> forall f :: FormaLabel(f) != s
    ensures r.Some? <==> s in FormaLabels
  {
    if s == "PRESENCIAL" then Some(PRESENCIAL)
    else if s == "VIRTUAL" then Some(VIRTUAL)
    else None
  }

  /** Serialising a category and reading it back gives the same category. */
  lemma CategoriaRoundTrip(c: Categoria)
    ensures ParseCategoria(CategoriaLabel(c)) == Some(c)
  {
  }

  /** Serialising a modality and reading it back gives the same modality. */
  lemma FormaRoundTrip(f: Forma)
    ensures ParseForma(FormaLabel(f)) == Some(f)
  {
  }

  /** Distinct categories are written as distinct labels. */
  lemma CategoriaLabelInjective(c: Categoria, d: Categoria)
    requires CategoriaLabel(c) == CategoriaLabel(d)
    ensures c == d
  {
    CategoriaRoundTrip(c);
    CategoriaRoundTrip(d);
  }

  /** Distinct modalities are written as distinct labels. */
  lemma FormaLabelInjective(f: Forma, g: Forma)
    requires FormaLabel(f) == FormaLabel(g)
    ensures f == g
  {
    FormaRoundTrip(f);
    FormaRoundTrip(g);
  }
}
