/**
 * What the six SWAPI mappers share: the .NET date types they copy, the
 * title-casing and nullable-URL helpers they call (whose bodies are not
 * part of this model, so they are parameters), and the evaluation order of
 * a C# object initialiser, whose first exception is the one that escapes.
 */
module SwapiMapping {
  import opened Wrappers
  import opened SwapiFieldParser

  /** A `DateTime`, copied unchanged by every mapper. */
  datatype DateTime = DateTime(ticks: int)

  /** A `DateOnly`. */
  datatype DateOnly = DateOnly(dayNumber: int)

  /** `RawTextToTitleCase`. */
  type TitleCase = string -> string

  /** `RawUrlToIdNullable`. */
  type UrlToIdNullable = Option<string> -> Parsed<Option<int>>

  /** The exception a parser call throws, if any. */
  function ErrorOf<T>(r: Parsed<T>): (e: Option<ParseError>)
    ensures e.Some? <==> r.Err?
    ensures r.Err? ==> e == Some(r.error)
  {
    if r.Err? then Some(r.error) else None
  }

  /** The first exception of initialisers evaluated in order. */
  function FirstError(es: seq<Option<ParseError>>): (e: Option<ParseError>)
    ensures e.None? <==> forall i :: 0 <= i < |es| ==> es[i].None?
    ensures e.Some? ==> exists i :: 0 <= i < |es| && es[i] == e && forall j :: 0 <= j < i ==> es[j].None?
  {
    FirstErrorFrom(es, 0)
  }

  /** The first exception among the initialisers from the `k`-th on. */
  function FirstErrorFrom(es: seq<Option<ParseError>>, k: nat): (e: Option<ParseError>)
    requires k <= |es|
    ensures e.None? <==> forall i :: k <= i < |es| ==> es[i].None?
    ensures e.Some? ==> exists i :: k <= i < |es| && es[i] == e && forall j :: k <= j < i ==> es[j].None?
    decreases |es| - k
  {
    if k == |es| then None
    else if es[k].Some? then es[k]
    else FirstErrorFrom(es, k + 1)
  }

  /** The first exception is that of the first initialiser that throws. */
  lemma FirstErrorAt(es: seq<Option<ParseError>>, k: nat)
    requires k < |es| && es[k].Some?
    requires forall j :: 0 <= j < k ==> es[j].None?
    ensures FirstError(es) == es[k]
  {
  }
}
