/**
 * `StarWarsInfo/Integrations/Swapi/Mappers/StarshipMapper.cs`: a SWAPI
 * starship, as deserialised, mapped to the stored `Starship`.  The pilot
 * and film lists are not carried over.
 */
module StarshipMapping {
  import opened Wrappers
  import opened SwapiFieldParser
  import opened SwapiMapping

  /** The mapper's properties, each a SWAPI text field (`String.Empty` by default). */
  datatype StarshipMapper = StarshipMapper(
    name: string,
    model: string,
    manufacturer: string,
    costInCredits: string,
    length: string,
    maxAtmospheringSpeed: string,
    crew: string,
    passengers: string,
    cargoCapacity: string,
    consumables: string,
    hyperdriveRating: string,
    mglt: string,
    starshipClass: string,
    created: DateTime,
    edited: DateTime,
    url: string)

  /** The stored starship, each field typed by the parser that fills it. */
  datatype Starship = Starship(
    starshipId: int,
    name: string,
    model: string,
    manufacturer: string,
    costInCredits: Option<Decimal>,
    length: Decimal,
    maxAtmospheringSpeed: Option<Decimal>,
    crew: Option<int>,
    passengers: Option<int>,
    cargoCapacity: Option<int>,
    consumables: string,
    hyperdriveRating: Option<Decimal>,
    mglt: Option<int>,
    starshipClass: string,
    created: DateTime,
    edited: DateTime)

  /** `new StarshipMapper()`: every text empty. */
  const Default: StarshipMapper :=
    StarshipMapper("", "", "", "", "", "", "", "", "", "", "", "", "", DateTime(0), DateTime(0), "")

  /** `ToStarship()`: the object initialiser over what each parser call returns or throws. */
  function ToStarship(m: StarshipMapper, titleCase: TitleCase): (r: Parsed<Starship>)
    ensures r.Ok? ==> RawUrlToId(m.url) == Ok(r.value.starshipId)
    ensures r.Ok? ==> r.value.name == titleCase(m.name) && r.value.model == titleCase(m.model)
    ensures r.Ok? ==> r.value.manufacturer == titleCase(m.manufacturer) && r.value.starshipClass == titleCase(m.starshipClass)
    ensures r.Ok? ==> RawTextToDecimalNullable(m.costInCredits) == Ok(r.value.costInCredits)
    ensures r.Ok? ==> RawTextToDecimal(m.length) == Ok(r.value.length)
    ensures r.Ok? ==> RawTextToDecimalNullable(m.maxAtmospheringSpeed) == Ok(r.value.maxAtmospheringSpeed)
    ensures r.Ok? ==> RawTextToIntNullable(m.crew) == Ok(r.value.crew)
    ensures r.Ok? ==> RawTextToIntNullable(m.passengers) == Ok(r.value.passengers)
    ensures r.Ok? ==> RawTextToUlongNullable(m.cargoCapacity) == Ok(r.value.cargoCapacity)
    ensures r.Ok? ==> RawTextToDecimalNullable(m.hyperdriveRating) == Ok(r.value.hyperdriveRating)
    ensures r.Ok? ==> RawTextToIntNullable(m.mglt) == Ok(r.value.mglt)
    ensures r.Ok? ==> r.value.consumables == m.consumables && r.value.created == m.created && r.value.edited == m.edited
  {
    Initialise(m, titleCase, RawUrlToId(m.url), RawTextToDecimalNullable(m.costInCredits), RawTextToDecimal(m.length),
               RawTextToDecimalNullable(m.maxAtmospheringSpeed), RawTextToIntNullable(m.crew),
               RawTextToIntNullable(m.passengers), RawTextToUlongNullable(m.cargoCapacity),
               RawTextToDecimalNullable(m.hyperdriveRating), RawTextToIntNullable(m.mglt))
  }

  /**
   * The initialiser, given the parser results in initialiser order: the
   * first that throws ends it.  The parsers are pure, so computing every
   * result up front gives what the C# initialiser gives.
   */
  function Initialise(m: StarshipMapper, titleCase: TitleCase, starshipId: Parsed<int>,
                      costInCredits: Parsed<Option<Decimal>>, length: Parsed<Decimal>,
                      maxAtmospheringSpeed: Parsed<Option<Decimal>>, crew: Parsed<Option<int>>,
                      passengers: Parsed<Option<int>>, cargoCapacity: Parsed<Option<int>>,
                      hyperdriveRating: Parsed<Option<Decimal>>, mglt: Parsed<Option<int>>): (r: Parsed<Starship>)
    ensures r.Ok? ==> starshipId == Ok(r.value.starshipId) && costInCredits == Ok(r.value.costInCredits)
    ensures r.Ok? ==> length == Ok(r.value.length) && maxAtmospheringSpeed == Ok(r.value.maxAtmospheringSpeed)
    ensures r.Ok? ==> crew == Ok(r.value.crew) && passengers == Ok(r.value.passengers)
    ensures r.Ok? ==> cargoCapacity == Ok(r.value.cargoCapacity) && hyperdriveRating == Ok(r.value.hyperdriveRating)
    ensures r.Ok? ==> mglt == Ok(r.value.mglt)
    ensures r.Ok? ==> r.value.name == titleCase(m.name) && r.value.model == titleCase(m.model)
    ensures r.Ok? ==> r.value.manufacturer == titleCase(m.manufacturer) && r.value.starshipClass == titleCase(m.starshipClass)
    ensures r.Ok? ==> r.value.consumables == m.consumables && r.value.created == m.created && r.value.edited == m.edited
  {
    var starshipId :- starshipId;
    var costInCredits :- costInCredits;
    var length :- length;
    var maxAtmospheringSpeed :- maxAtmospheringSpeed;
    var crew :- crew;
    var passengers :- passengers;
    var cargoCapacity :- cargoCapacity;
    var hyperdriveRating :- hyperdriveRating;
    var mglt :- mglt;
    Ok(Starship(starshipId, titleCase(m.name), titleCase(m.model), titleCase(m.manufacturer),
                costInCredits, length, maxAtmospheringSpeed, crew, passengers, cargoCapacity,
                m.consumables, hyperdriveRating, mglt, titleCase(m.starshipClass), m.created, m.edited))
  }

  /** The initialiser fails exactly when some parser result is an exception, and with the first. */
  lemma InitialiseFailsFirst(m: StarshipMapper, titleCase: TitleCase, starshipId: Parsed<int>,
                             costInCredits: Parsed<Option<Decimal>>, length: Parsed<Decimal>,
                             maxAtmospheringSpeed: Parsed<Option<Decimal>>, crew: Parsed<Option<int>>,
                             passengers: Parsed<Option<int>>, cargoCapacity: Parsed<Option<int>>,
                             hyperdriveRating: Parsed<Option<Decimal>>, mglt: Parsed<Option<int>>)
    ensures var r := Initialise(m, titleCase, starshipId, costInCredits, length, maxAtmospheringSpeed, crew,
                                passengers, cargoCapacity, hyperdriveRating, mglt);
      var e := FirstError([ErrorOf(starshipId), ErrorOf(costInCredits), ErrorOf(length),
                           ErrorOf(maxAtmospheringSpeed), ErrorOf(crew), ErrorOf(passengers),
                           ErrorOf(cargoCapacity), ErrorOf(hyperdriveRating), ErrorOf(mglt)]);
      (r.Err? <==> e.Some?) && (r.Err? ==> r.error == e.value)
  {
    var es := [ErrorOf(starshipId), ErrorOf(costInCredits), ErrorOf(length),
               ErrorOf(maxAtmospheringSpeed), ErrorOf(crew), ErrorOf(passengers),
               ErrorOf(cargoCapacity), ErrorOf(hyperdriveRating), ErrorOf(mglt)];
    if starshipId.Err? { FirstErrorAt(es, 0); }
    else if costInCredits.Err? { FirstErrorAt(es, 1); }
    else if length.Err? { FirstErrorAt(es, 2); }
    else if maxAtmospheringSpeed.Err? { FirstErrorAt(es, 3); }
    else {
      LaterFieldsFailFirst(m, titleCase, starshipId, costInCredits, length, maxAtmospheringSpeed, crew,
                           passengers, cargoCapacity, hyperdriveRating, mglt);
    }
  }

  /** `InitialiseFailsFirst` once the first four parser results are values. */
  lemma LaterFieldsFailFirst(m: StarshipMapper, titleCase: TitleCase, starshipId: Parsed<int>,
                             costInCredits: Parsed<Option<Decimal>>, length: Parsed<Decimal>,
                             maxAtmospheringSpeed: Parsed<Option<Decimal>>, crew: Parsed<Option<int>>,
                             passengers: Parsed<Option<int>>, cargoCapacity: Parsed<Option<int>>,
                             hyperdriveRating: Parsed<Option<Decimal>>, mglt: Parsed<Option<int>>)
    requires starshipId.Ok? && costInCredits.Ok? && length.Ok? && maxAtmospheringSpeed.Ok?
    ensures var r := Initialise(m, titleCase, starshipId, costInCredits, length, maxAtmospheringSpeed, crew,
                                passengers, cargoCapacity, hyperdriveRating, mglt);
      var e := FirstError([ErrorOf(starshipId), ErrorOf(costInCredits), ErrorOf(length),
                           ErrorOf(maxAtmospheringSpeed), ErrorOf(crew), ErrorOf(passengers),
                           ErrorOf(cargoCapacity), ErrorOf(hyperdriveRating), ErrorOf(mglt)]);
      (r.Err? <==> e.Some?) && (r.Err? ==> r.error == e.value)
  {
    var es := [ErrorOf(starshipId), ErrorOf(costInCredits), ErrorOf(length),
               ErrorOf(maxAtmospheringSpeed), ErrorOf(crew), ErrorOf(passengers),
               ErrorOf(cargoCapacity), ErrorOf(hyperdriveRating), ErrorOf(mglt)];
    if crew.Err? { FirstErrorAt(es, 4); }
    else if passengers.Err? { FirstErrorAt(es, 5); }
    else if cargoCapacity.Err? { FirstErrorAt(es, 6); }
    else if hyperdriveRating.Err? { FirstErrorAt(es, 7); }
    else if mglt.Err? { FirstErrorAt(es, 8); }
  }

  /** The exceptions of the parser calls, in initialiser order. */
  function Errors(m: StarshipMapper): seq<Option<ParseError>> {
    [ErrorOf(RawUrlToId(m.url)), ErrorOf(RawTextToDecimalNullable(m.costInCredits)),
     ErrorOf(RawTextToDecimal(m.length)), ErrorOf(RawTextToDecimalNullable(m.maxAtmospheringSpeed)),
     ErrorOf(RawTextToIntNullable(m.crew)), ErrorOf(RawTextToIntNullable(m.passengers)),
     ErrorOf(RawTextToUlongNullable(m.cargoCapacity)), ErrorOf(RawTextToDecimalNullable(m.hyperdriveRating)),
     ErrorOf(RawTextToIntNullable(m.mglt))]
  }

  /** The mapping fails exactly when some parser call throws, and with the first such exception. */
  lemma {:induction false} ToStarshipFailsFirst(m: StarshipMapper, titleCase: TitleCase)
    ensures ToStarship(m, titleCase).Err? <==> FirstError(Errors(m)).Some?
    ensures ToStarship(m, titleCase).Err? ==> ToStarship(m, titleCase).error == FirstError(Errors(m)).value
  {
    InitialiseFailsFirst(m, titleCase, RawUrlToId(m.url), RawTextToDecimalNullable(m.costInCredits),
                         RawTextToDecimal(m.length), RawTextToDecimalNullable(m.maxAtmospheringSpeed),
                         RawTextToIntNullable(m.crew), RawTextToIntNullable(m.passengers),
                         RawTextToUlongNullable(m.cargoCapacity), RawTextToDecimalNullable(m.hyperdriveRating),
                         RawTextToIntNullable(m.mglt));
  }

  /**
   * `Length` has no null-marker check: with the fields before it parsed, a
   * length of `unknown` makes the whole mapping throw a format error.
   */
  lemma UnknownLengthThrows(m: StarshipMapper, titleCase: TitleCase)
    requires RawUrlToId(m.url).Ok? && RawTextToDecimalNullable(m.costInCredits).Ok?
    requires m.length == "unknown"
    ensures ToStarship(m, titleCase) == Err(FormatException)
  {
    UnknownDecimal(m.length);
  }

  /** Null markers in the nullable fields give null fields, and the mapping still succeeds. */
  lemma MarkersGiveNullFields(m: StarshipMapper, titleCase: TitleCase)
    requires RawUrlToId(m.url).Ok? && RawTextToDecimal(m.length).Ok?
    requires TextIsNull(Some(m.costInCredits)) && TextIsNull(Some(m.maxAtmospheringSpeed))
    requires TextIsNull(Some(m.crew)) && TextIsNull(Some(m.passengers)) && TextIsNull(Some(m.cargoCapacity))
    requires TextIsNull(Some(m.hyperdriveRating)) && TextIsNull(Some(m.mglt))
    ensures ToStarship(m, titleCase).Ok?
    ensures var s := ToStarship(m, titleCase).value;
      s.costInCredits == None && s.maxAtmospheringSpeed == None && s.crew == None && s.passengers == None &&
      s.cargoCapacity == None && s.hyperdriveRating == None && s.mglt == None
  {
    InitialiseFailsFirst(m, titleCase, RawUrlToId(m.url), Ok(None), RawTextToDecimal(m.length), Ok(None),
                         Ok(None), Ok(None), Ok(None), Ok(None), Ok(None));
  }

  /** A default-constructed mapper throws: its empty `Url` has an empty last segment. */
  lemma DefaultThrows(titleCase: TitleCase)
    ensures ToStarship(Default, titleCase) == Err(FormatException)
  {
    BlankFormatError("");
  }
}
