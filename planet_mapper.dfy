/**
 * `StarWarsInfo/Integrations/Swapi/Mappers/PlanetMapper.cs`: a SWAPI planet
 * mapped to the stored `Planet`.  Climate and terrain stay text; gravity
 * such as `1 standard` is read as the number its digits spell.
 */
module PlanetMapping {
  import opened Wrappers
  import opened Strings
  import opened SwapiFieldParser
  import opened SwapiMapping

  /** The mapper's properties, each a SWAPI text field (`String.Empty` by default). */
  datatype PlanetMapper = PlanetMapper(
    name: string,
    rotationPeriod: string,
    orbitalPeriod: string,
    diameter: string,
    climate: string,
    gravity: string,
    terrain: string,
    surfaceWater: string,
    population: string,
    created: DateTime,
    edited: DateTime,
    url: string)

  /** The stored planet. */
  datatype Planet = Planet(
    planetId: int,
    name: string,
    rotationPeriod: Option<int>,
    orbitalPeriod: Option<int>,
    diameter: Option<int>,
    climate: string,
    gravity: Option<Decimal>,
    terrain: string,
    surfaceWater: Option<Decimal>,
    population: Option<int>,
    created: DateTime,
    edited: DateTime)

  /** `new PlanetMapper()`: every text empty. */
  const Default: PlanetMapper :=
    PlanetMapper("", "", "", "", "", "", "", "", "", DateTime(0), DateTime(0), "")

  /** `ToPlanet()`: the object initialiser over what each parser call returns or throws. */
  function ToPlanet(m: PlanetMapper, titleCase: TitleCase): (r: Parsed<Planet>)
    ensures r.Ok? ==> RawUrlToId(m.url) == Ok(r.value.planetId) && r.value.name == titleCase(m.name)
    ensures r.Ok? ==> RawTextToIntNullable(m.rotationPeriod) == Ok(r.value.rotationPeriod)
    ensures r.Ok? ==> RawTextToIntNullable(m.orbitalPeriod) == Ok(r.value.orbitalPeriod)
    ensures r.Ok? ==> RawTextToIntNullable(m.diameter) == Ok(r.value.diameter)
    ensures r.Ok? ==> RawTextToDecimalNullable(m.gravity) == Ok(r.value.gravity)
    ensures r.Ok? ==> RawTextToDecimalNullable(m.surfaceWater) == Ok(r.value.surfaceWater)
    ensures r.Ok? ==> RawTextToUlongNullable(m.population) == Ok(r.value.population)
    ensures r.Ok? ==> r.value.climate == m.climate && r.value.terrain == m.terrain
    ensures r.Ok? ==> r.value.created == m.created && r.value.edited == m.edited
  {
    Initialise(m, titleCase, RawUrlToId(m.url), RawTextToIntNullable(m.rotationPeriod),
               RawTextToIntNullable(m.orbitalPeriod), RawTextToIntNullable(m.diameter),
               RawTextToDecimalNullable(m.gravity), RawTextToDecimalNullable(m.surfaceWater),
               RawTextToUlongNullable(m.population))
  }

  /**
   * The initialiser, given the parser results in initialiser order: the
   * first that throws ends it.  The parsers are pure, so computing every
   * result up front gives what the C# initialiser gives.
   */
  function Initialise(m: PlanetMapper, titleCase: TitleCase, planetId: Parsed<int>,
                      rotationPeriod: Parsed<Option<int>>, orbitalPeriod: Parsed<Option<int>>,
                      diameter: Parsed<Option<int>>, gravity: Parsed<Option<Decimal>>,
                      surfaceWater: Parsed<Option<Decimal>>, population: Parsed<Option<int>>): (r: Parsed<Planet>)
    ensures r.Ok? ==> planetId == Ok(r.value.planetId) && rotationPeriod == Ok(r.value.rotationPeriod)
    ensures r.Ok? ==> orbitalPeriod == Ok(r.value.orbitalPeriod) && diameter == Ok(r.value.diameter)
    ensures r.Ok? ==> gravity == Ok(r.value.gravity) && surfaceWater == Ok(r.value.surfaceWater)
    ensures r.Ok? ==> population == Ok(r.value.population) && r.value.name == titleCase(m.name)
    ensures r.Ok? ==> r.value.climate == m.climate && r.value.terrain == m.terrain
    ensures r.Ok? ==> r.value.created == m.created && r.value.edited == m.edited
  {
    var planetId :- planetId;
    var rotationPeriod :- rotationPeriod;
    var orbitalPeriod :- orbitalPeriod;
    var diameter :- diameter;
    var gravity :- gravity;
    var surfaceWater :- surfaceWater;
    var population :- population;
    Ok(Planet(planetId, titleCase(m.name), rotationPeriod, orbitalPeriod, diameter, m.climate,
              gravity, m.terrain, surfaceWater, population, m.created, m.edited))
  }

  /** The initialiser fails exactly when some parser result is an exception, and with the first. */
  lemma InitialiseFailsFirst(m: PlanetMapper, titleCase: TitleCase, planetId: Parsed<int>,
                             rotationPeriod: Parsed<Option<int>>, orbitalPeriod: Parsed<Option<int>>,
                             diameter: Parsed<Option<int>>, gravity: Parsed<Option<Decimal>>,
                             surfaceWater: Parsed<Option<Decimal>>, population: Parsed<Option<int>>)
    ensures var r := Initialise(m, titleCase, planetId, rotationPeriod, orbitalPeriod, diameter, gravity,
                                surfaceWater, population);
      var e := FirstError([ErrorOf(planetId), ErrorOf(rotationPeriod), ErrorOf(orbitalPeriod), ErrorOf(diameter),
                           ErrorOf(gravity), ErrorOf(surfaceWater), ErrorOf(population)]);
      (r.Err? <==> e.Some?) && (r.Err? ==> r.error == e.value)
  {
    var es := [ErrorOf(planetId), ErrorOf(rotationPeriod), ErrorOf(orbitalPeriod), ErrorOf(diameter),
               ErrorOf(gravity), ErrorOf(surfaceWater), ErrorOf(population)];
    if planetId.Err? { FirstErrorAt(es, 0); }
    else if rotationPeriod.Err? { FirstErrorAt(es, 1); }
    else if orbitalPeriod.Err? { FirstErrorAt(es, 2); }
    else {
      LaterFieldsFailFirst(m, titleCase, planetId, rotationPeriod, orbitalPeriod, diameter, gravity,
                           surfaceWater, population);
    }
  }

  /** `InitialiseFailsFirst` once the first three parser results are values. */
  lemma LaterFieldsFailFirst(m: PlanetMapper, titleCase: TitleCase, planetId: Parsed<int>,
                             rotationPeriod: Parsed<Option<int>>, orbitalPeriod: Parsed<Option<int>>,
                             diameter: Parsed<Option<int>>, gravity: Parsed<Option<Decimal>>,
                             surfaceWater: Parsed<Option<Decimal>>, population: Parsed<Option<int>>)
    requires planetId.Ok? && rotationPeriod.Ok? && orbitalPeriod.Ok?
    ensures var r := Initialise(m, titleCase, planetId, rotationPeriod, orbitalPeriod, diameter, gravity,
                                surfaceWater, population);
      var e := FirstError([ErrorOf(planetId), ErrorOf(rotationPeriod), ErrorOf(orbitalPeriod), ErrorOf(diameter),
                           ErrorOf(gravity), ErrorOf(surfaceWater), ErrorOf(population)]);
      (r.Err? <==> e.Some?) && (r.Err? ==> r.error == e.value)
  {
    var es := [ErrorOf(planetId), ErrorOf(rotationPeriod), ErrorOf(orbitalPeriod), ErrorOf(diameter),
               ErrorOf(gravity), ErrorOf(surfaceWater), ErrorOf(population)];
    if diameter.Err? { FirstErrorAt(es, 3); }
    else if gravity.Err? { FirstErrorAt(es, 4); }
    else if surfaceWater.Err? { FirstErrorAt(es, 5); }
    else if population.Err? { FirstErrorAt(es, 6); }
  }

  /** The exceptions of the parser calls, in initialiser order. */
  function Errors(m: PlanetMapper): seq<Option<ParseError>> {
    [ErrorOf(RawUrlToId(m.url)), ErrorOf(RawTextToIntNullable(m.rotationPeriod)),
     ErrorOf(RawTextToIntNullable(m.orbitalPeriod)), ErrorOf(RawTextToIntNullable(m.diameter)),
     ErrorOf(RawTextToDecimalNullable(m.gravity)), ErrorOf(RawTextToDecimalNullable(m.surfaceWater)),
     ErrorOf(RawTextToUlongNullable(m.population))]
  }

  /** The mapping fails exactly when some parser call throws, and with the first such exception. */
  lemma {:induction false} ToPlanetFailsFirst(m: PlanetMapper, titleCase: TitleCase)
    ensures ToPlanet(m, titleCase).Err? <==> FirstError(Errors(m)).Some?
    ensures ToPlanet(m, titleCase).Err? ==> ToPlanet(m, titleCase).error == FirstError(Errors(m)).value
  {
    InitialiseFailsFirst(m, titleCase, RawUrlToId(m.url), RawTextToIntNullable(m.rotationPeriod),
                         RawTextToIntNullable(m.orbitalPeriod), RawTextToIntNullable(m.diameter),
                         RawTextToDecimalNullable(m.gravity), RawTextToDecimalNullable(m.surfaceWater),
                         RawTextToUlongNullable(m.population));
  }

  /** With every other parsed field parsing, a gravity that parses makes the mapping succeed with it. */
  lemma GravityKept(m: PlanetMapper, titleCase: TitleCase, g: Option<Decimal>)
    requires RawUrlToId(m.url).Ok? && RawTextToIntNullable(m.rotationPeriod).Ok?
    requires RawTextToIntNullable(m.orbitalPeriod).Ok? && RawTextToIntNullable(m.diameter).Ok?
    requires RawTextToDecimalNullable(m.gravity) == Ok(g)
    requires RawTextToDecimalNullable(m.surfaceWater).Ok? && RawTextToUlongNullable(m.population).Ok?
    ensures ToPlanet(m, titleCase).Ok? && ToPlanet(m, titleCase).value.gravity == g
  {
    InitialiseFailsFirst(m, titleCase, RawUrlToId(m.url), RawTextToIntNullable(m.rotationPeriod),
                         RawTextToIntNullable(m.orbitalPeriod), RawTextToIntNullable(m.diameter),
                         Ok(g), RawTextToDecimalNullable(m.surfaceWater), RawTextToUlongNullable(m.population));
  }

  /** A gravity of digits then a unit, such as `1 standard`, is stored as the digits' value with scale 0. */
  lemma GravityWithUnit(m: PlanetMapper, titleCase: TitleCase, digits: string, unit: string)
    requires m.gravity == digits + unit
    requires forall i :: 0 <= i < |unit| ==> !IsNumeric(unit[i])
    requires |digits| > 0 && AllDigits(digits) && DigitsValue(digits) <= DecimalMax
    requires RawUrlToId(m.url).Ok? && RawTextToIntNullable(m.rotationPeriod).Ok?
    requires RawTextToIntNullable(m.orbitalPeriod).Ok? && RawTextToIntNullable(m.diameter).Ok?
    requires RawTextToDecimalNullable(m.surfaceWater).Ok? && RawTextToUlongNullable(m.population).Ok?
    ensures ToPlanet(m, titleCase).Ok?
    ensures ToPlanet(m, titleCase).value.gravity == Some(Decimal(DigitsValue(digits), 0))
  {
    NumberWithUnit(digits, unit);
    GravityKept(m, titleCase, Some(Decimal(DigitsValue(digits), 0)));
  }

  /** A default-constructed mapper throws: its empty `Url` has an empty last segment. */
  lemma DefaultThrows(titleCase: TitleCase)
    ensures ToPlanet(Default, titleCase) == Err(FormatException)
  {
    BlankFormatError("");
  }
}
