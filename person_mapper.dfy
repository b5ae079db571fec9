/**
 * `StarWarsInfo/Integrations/Swapi/Mappers/PersonMapper.cs`: a SWAPI person
 * mapped to the stored `Person`.  The homeworld goes through the
 * non-nullable URL parser, so a person without one cannot be mapped.
 */
module PersonMapping {
  import opened Wrappers
  import opened SwapiFieldParser
  import opened SwapiMapping

  /** The mapper's properties, each a SWAPI text field (`string.Empty` by default). */
  datatype PersonMapper = PersonMapper(
    name: string,
    height: string,
    mass: string,
    hairColor: string,
    skinColor: string,
    eyeColor: string,
    birthYear: string,
    gender: string,
    homeworld: string,
    created: DateTime,
    edited: DateTime,
    url: string)

  /** The stored person. */
  datatype Person = Person(
    personId: int,
    name: string,
    height: Option<int>,
    mass: Option<Decimal>,
    hairColor: string,
    skinColor: string,
    eyeColor: string,
    birthYear: string,
    gender: string,
    homeworldId: int,
    created: DateTime,
    edited: DateTime)

  /** `new PersonMapper()`: every text empty. */
  const Default: PersonMapper :=
    PersonMapper("", "", "", "", "", "", "", "", "", DateTime(0), DateTime(0), "")

  /** `ToPerson()`: the object initialiser over what each parser call returns or throws. */
  function ToPerson(m: PersonMapper, titleCase: TitleCase): (r: Parsed<Person>)
    ensures r.Ok? ==> RawUrlToId(m.url) == Ok(r.value.personId) && RawUrlToId(m.homeworld) == Ok(r.value.homeworldId)
    ensures r.Ok? ==> RawTextToIntNullable(m.height) == Ok(r.value.height)
    ensures r.Ok? ==> RawTextToDecimalNullable(m.mass) == Ok(r.value.mass)
    ensures r.Ok? ==> r.value.name == titleCase(m.name) && r.value.gender == titleCase(m.gender)
    ensures r.Ok? ==> r.value.hairColor == titleCase(m.hairColor) && r.value.skinColor == titleCase(m.skinColor)
    ensures r.Ok? ==> r.value.eyeColor == titleCase(m.eyeColor) && r.value.birthYear == m.birthYear
    ensures r.Ok? ==> r.value.created == m.created && r.value.edited == m.edited
  {
    Initialise(m, titleCase, RawUrlToId(m.url), RawTextToIntNullable(m.height),
               RawTextToDecimalNullable(m.mass), RawUrlToId(m.homeworld))
  }

  /**
   * The initialiser, given the parser results in initialiser order: the
   * first that throws ends it.  The parsers are pure, so computing every
   * result up front gives what the C# initialiser gives.
   */
  function Initialise(m: PersonMapper, titleCase: TitleCase, personId: Parsed<int>, height: Parsed<Option<int>>,
                      mass: Parsed<Option<Decimal>>, homeworldId: Parsed<int>): (r: Parsed<Person>)
    ensures r.Ok? ==> personId == Ok(r.value.personId) && height == Ok(r.value.height)
    ensures r.Ok? ==> mass == Ok(r.value.mass) && homeworldId == Ok(r.value.homeworldId)
    ensures r.Ok? ==> r.value.name == titleCase(m.name) && r.value.gender == titleCase(m.gender)
    ensures r.Ok? ==> r.value.hairColor == titleCase(m.hairColor) && r.value.skinColor == titleCase(m.skinColor)
    ensures r.Ok? ==> r.value.eyeColor == titleCase(m.eyeColor) && r.value.birthYear == m.birthYear
    ensures r.Ok? ==> r.value.created == m.created && r.value.edited == m.edited
  {
    var personId :- personId;
    var height :- height;
    var mass :- mass;
    var homeworldId :- homeworldId;
    Ok(Person(personId, titleCase(m.name), height, mass, titleCase(m.hairColor), titleCase(m.skinColor),
              titleCase(m.eyeColor), m.birthYear, titleCase(m.gender), homeworldId, m.created, m.edited))
  }

  /** The initialiser fails exactly when some parser result is an exception, and with the first. */
  lemma InitialiseFailsFirst(m: PersonMapper, titleCase: TitleCase, personId: Parsed<int>, height: Parsed<Option<int>>,
                             mass: Parsed<Option<Decimal>>, homeworldId: Parsed<int>)
    ensures var r := Initialise(m, titleCase, personId, height, mass, homeworldId);
      var e := FirstError([ErrorOf(personId), ErrorOf(height), ErrorOf(mass), ErrorOf(homeworldId)]);
      (r.Err? <==> e.Some?) && (r.Err? ==> r.error == e.value)
  {
    var es := [ErrorOf(personId), ErrorOf(height), ErrorOf(mass), ErrorOf(homeworldId)];
    if personId.Err? { FirstErrorAt(es, 0); }
    else if height.Err? { FirstErrorAt(es, 1); }
    else if mass.Err? { FirstErrorAt(es, 2); }
    else if homeworldId.Err? { FirstErrorAt(es, 3); }
  }

  /** The exceptions of the parser calls, in initialiser order. */
  function Errors(m: PersonMapper): seq<Option<ParseError>> {
    [ErrorOf(RawUrlToId(m.url)), ErrorOf(RawTextToIntNullable(m.height)),
     ErrorOf(RawTextToDecimalNullable(m.mass)), ErrorOf(RawUrlToId(m.homeworld))]
  }

  /** The mapping fails exactly when some parser call throws, and with the first such exception. */
  lemma {:induction false} ToPersonFailsFirst(m: PersonMapper, titleCase: TitleCase)
    ensures ToPerson(m, titleCase).Err? <==> FirstError(Errors(m)).Some?
    ensures ToPerson(m, titleCase).Err? ==> ToPerson(m, titleCase).error == FirstError(Errors(m)).value
  {
    InitialiseFailsFirst(m, titleCase, RawUrlToId(m.url), RawTextToIntNullable(m.height),
                         RawTextToDecimalNullable(m.mass), RawUrlToId(m.homeworld));
  }

  /** Once the id, height and mass parse, an exception from the homeworld URL is the mapping's. */
  lemma HomeworldErrorEscapes(m: PersonMapper, titleCase: TitleCase)
    requires RawUrlToId(m.url).Ok? && RawTextToIntNullable(m.height).Ok? && RawTextToDecimalNullable(m.mass).Ok?
    requires RawUrlToId(m.homeworld).Err?
    ensures ToPerson(m, titleCase) == Err(RawUrlToId(m.homeworld).error)
  {
    InitialiseFailsFirst(m, titleCase, RawUrlToId(m.url), RawTextToIntNullable(m.height),
                         RawTextToDecimalNullable(m.mass), RawUrlToId(m.homeworld));
  }

  /** Once the id, height and mass parse, a blank homeworld (the default) makes the mapping throw a format error. */
  lemma BlankHomeworldThrows(m: PersonMapper, titleCase: TitleCase)
    requires RawUrlToId(m.url).Ok? && RawTextToIntNullable(m.height).Ok? && RawTextToDecimalNullable(m.mass).Ok?
    requires forall i :: 0 <= i < |m.homeworld| ==> IsParseWhite(m.homeworld[i])
    ensures ToPerson(m, titleCase) == Err(FormatException)
  {
    BlankUrlThrows(m.homeworld);
    HomeworldErrorEscapes(m, titleCase);
  }

  /** A default-constructed mapper throws: its empty `Url` has an empty last segment. */
  lemma DefaultThrows(titleCase: TitleCase)
    ensures ToPerson(Default, titleCase) == Err(FormatException)
  {
    BlankFormatError("");
  }
}
