/**
 * `StarWarsInfo/Integrations/Swapi/Mappers/SpeciesMapper.cs`: a SWAPI
 * species mapped to the stored `Species`.  The homeworld URL may be null
 * and goes through the nullable URL parser.
 */
module SpeciesMapping {
  import opened Wrappers
  import opened Strings
  import opened SwapiFieldParser
  import opened SwapiMapping

  /** The mapper's properties; `Homeworld` is the one nullable text. */
  datatype SpeciesMapper = SpeciesMapper(
    name: string,
    classification: string,
    designation: string,
    averageHeight: string,
    skinColors: string,
    hairColors: string,
    eyeColors: string,
    averageLifespan: string,
    homeworld: Option<string>,
    language: string,
    created: DateTime,
    edited: DateTime,
    url: string)

  /** The stored species. */
  datatype Species = Species(
    speciesId: int,
    name: string,
    classification: string,
    designation: string,
    averageHeight: Option<int>,
    skinColors: string,
    hairColors: string,
    eyeColors: string,
    averageLifespan: Option<int>,
    homeworldId: Option<int>,
    language: string,
    created: DateTime,
    edited: DateTime)

  /** `new SpeciesMapper()`: every text empty, `Homeworld` included. */
  const Default: SpeciesMapper :=
    SpeciesMapper("", "", "", "", "", "", "", "", Some(""), "", DateTime(0), DateTime(0), "")

  /** `ToSpecies()`: the object initialiser over what each parser call returns or throws. */
  function ToSpecies(m: SpeciesMapper, titleCase: TitleCase, urlToIdNullable: UrlToIdNullable): (r: Parsed<Species>)
    ensures r.Ok? ==> RawUrlToId(m.url) == Ok(r.value.speciesId)
    ensures r.Ok? ==> r.value.name == titleCase(m.name) && r.value.classification == titleCase(m.classification)
    ensures r.Ok? ==> r.value.designation == titleCase(m.designation) && r.value.language == titleCase(m.language)
    ensures r.Ok? ==> RawTextToIntNullable(m.averageHeight) == Ok(r.value.averageHeight)
    ensures r.Ok? ==> RawTextToIntNullable(m.averageLifespan) == Ok(r.value.averageLifespan)
    ensures r.Ok? ==> urlToIdNullable(m.homeworld) == Ok(r.value.homeworldId)
    ensures r.Ok? ==> r.value.skinColors == m.skinColors && r.value.hairColors == m.hairColors && r.value.eyeColors == m.eyeColors
    ensures r.Ok? ==> r.value.created == m.created && r.value.edited == m.edited
  {
    Initialise(m, titleCase, RawUrlToId(m.url), RawTextToIntNullable(m.averageHeight),
               RawTextToIntNullable(m.averageLifespan), urlToIdNullable(m.homeworld))
  }

  /**
   * The initialiser, given the parser results in initialiser order: the
   * first that throws ends it.  The parsers are pure, so computing every
   * result up front gives what the C# initialiser gives.
   */
  function Initialise(m: SpeciesMapper, titleCase: TitleCase, speciesId: Parsed<int>,
                      averageHeight: Parsed<Option<int>>, averageLifespan: Parsed<Option<int>>,
                      homeworldId: Parsed<Option<int>>): (r: Parsed<Species>)
    ensures r.Ok? ==> speciesId == Ok(r.value.speciesId) && averageHeight == Ok(r.value.averageHeight)
    ensures r.Ok? ==> averageLifespan == Ok(r.value.averageLifespan) && homeworldId == Ok(r.value.homeworldId)
    ensures r.Ok? ==> r.value.name == titleCase(m.name) && r.value.classification == titleCase(m.classification)
    ensures r.Ok? ==> r.value.designation == titleCase(m.designation) && r.value.language == titleCase(m.language)
    ensures r.Ok? ==> r.value.skinColors == m.skinColors && r.value.hairColors == m.hairColors && r.value.eyeColors == m.eyeColors
    ensures r.Ok? ==> r.value.created == m.created && r.value.edited == m.edited
  {
    var speciesId :- speciesId;
    var averageHeight :- averageHeight;
    var averageLifespan :- averageLifespan;
    var homeworldId :- homeworldId;
    Ok(Species(speciesId, titleCase(m.name), titleCase(m.classification), titleCase(m.designation),
               averageHeight, m.skinColors, m.hairColors, m.eyeColors, averageLifespan, homeworldId,
               titleCase(m.language), m.created, m.edited))
  }

  /** The initialiser fails exactly when some parser result is an exception, and with the first. */
  lemma InitialiseFailsFirst(m: SpeciesMapper, titleCase: TitleCase, speciesId: Parsed<int>,
                             averageHeight: Parsed<Option<int>>, averageLifespan: Parsed<Option<int>>,
                             homeworldId: Parsed<Option<int>>)
    ensures var r := Initialise(m, titleCase, speciesId, averageHeight, averageLifespan, homeworldId);
      var e := FirstError([ErrorOf(speciesId), ErrorOf(averageHeight), ErrorOf(averageLifespan), ErrorOf(homeworldId)]);
      (r.Err? <==> e.Some?) && (r.Err? ==> r.error == e.value)
  {
    var es := [ErrorOf(speciesId), ErrorOf(averageHeight), ErrorOf(averageLifespan), ErrorOf(homeworldId)];
    if speciesId.Err? { FirstErrorAt(es, 0); }
    else if averageHeight.Err? { FirstErrorAt(es, 1); }
    else if averageLifespan.Err? { FirstErrorAt(es, 2); }
    else if homeworldId.Err? { FirstErrorAt(es, 3); }
  }

  /** The exceptions of the parser calls, in initialiser order. */
  function Errors(m: SpeciesMapper, urlToIdNullable: UrlToIdNullable): seq<Option<ParseError>> {
    [ErrorOf(RawUrlToId(m.url)), ErrorOf(RawTextToIntNullable(m.averageHeight)),
     ErrorOf(RawTextToIntNullable(m.averageLifespan)), ErrorOf(urlToIdNullable(m.homeworld))]
  }

  /** The mapping fails exactly when some parser call throws, and with the first such exception. */
  lemma {:induction false} ToSpeciesFailsFirst(m: SpeciesMapper, titleCase: TitleCase, urlToIdNullable: UrlToIdNullable)
    ensures ToSpecies(m, titleCase, urlToIdNullable).Err? <==> FirstError(Errors(m, urlToIdNullable)).Some?
    ensures ToSpecies(m, titleCase, urlToIdNullable).Err? ==>
      ToSpecies(m, titleCase, urlToIdNullable).error == FirstError(Errors(m, urlToIdNullable)).value
  {
    InitialiseFailsFirst(m, titleCase, RawUrlToId(m.url), RawTextToIntNullable(m.averageHeight),
                         RawTextToIntNullable(m.averageLifespan), urlToIdNullable(m.homeworld));
  }

  /** Once the id and the height parse, an exception from the lifespan is the mapping's, whatever the homeworld. */
  lemma LifespanErrorEscapes(m: SpeciesMapper, titleCase: TitleCase, urlToIdNullable: UrlToIdNullable)
    requires RawUrlToId(m.url).Ok? && RawTextToIntNullable(m.averageHeight).Ok?
    requires RawTextToIntNullable(m.averageLifespan).Err?
    ensures ToSpecies(m, titleCase, urlToIdNullable) == Err(RawTextToIntNullable(m.averageLifespan).error)
  {
    InitialiseFailsFirst(m, titleCase, RawUrlToId(m.url), RawTextToIntNullable(m.averageHeight),
                         RawTextToIntNullable(m.averageLifespan), urlToIdNullable(m.homeworld));
  }

  /**
   * A digit-free average lifespan that is not a null marker, such as
   * `indefinite`, throws a format error once the id and the height parse.
   */
  lemma DigitFreeLifespanThrows(m: SpeciesMapper, titleCase: TitleCase, urlToIdNullable: UrlToIdNullable)
    requires RawUrlToId(m.url).Ok? && RawTextToIntNullable(m.averageHeight).Ok?
    requires |m.averageLifespan| > 0 && !IsWhiteSpace(m.averageLifespan[0])
    requires m.averageLifespan[0] != 'u' && m.averageLifespan[0] != 'n'
    requires forall i :: 0 <= i < |m.averageLifespan| ==> !IsDigit(m.averageLifespan[i])
    ensures ToSpecies(m, titleCase, urlToIdNullable) == Err(FormatException)
  {
    DigitFreeThrows(m.averageLifespan);
    LifespanErrorEscapes(m, titleCase, urlToIdNullable);
  }

  /** A default-constructed mapper throws: its empty `Url` has an empty last segment. */
  lemma DefaultThrows(titleCase: TitleCase, urlToIdNullable: UrlToIdNullable)
    ensures ToSpecies(Default, titleCase, urlToIdNullable) == Err(FormatException)
  {
    BlankFormatError("");
  }
}
