/**
 * `StarWarsInfo/Integrations/Swapi/Mappers/VehicleMapper.cs`: a SWAPI
 * vehicle mapped to the stored `Vehicle`.  Unlike a starship's, a vehicle's
 * cost and length are nullable, and its cargo capacity stays text.
 */
module VehicleMapping {
  import opened Wrappers
  import opened SwapiFieldParser
  import opened SwapiMapping

  /** The mapper's properties, each a SWAPI text field (`String.Empty` by default). */
  datatype VehicleMapper = VehicleMapper(
    name: string,
    model: string,
    manufacturer: string,
    costInCredits: string,
    length: string,
    maxAtmospheringSpeed: string,
    crew: string,
    passengers: string,
    cargoCapacity: string,
    consumables: string,
    vehicleClass: string,
    created: DateTime,
    edited: DateTime,
    url: string)

  /** The stored vehicle. */
  datatype Vehicle = Vehicle(
    vehicleId: int,
    name: string,
    model: string,
    manufacturer: string,
    costInCredits: Option<Decimal>,
    length: Option<Decimal>,
    maxAtmospheringSpeed: Option<int>,
    crew: Option<int>,
    passengers: Option<int>,
    cargoCapacity: string,
    consumables: string,
    vehicleClass: string,
    created: DateTime,
    edited: DateTime)

  /** `new VehicleMapper()`: every text empty. */
  const Default: VehicleMapper :=
    VehicleMapper("", "", "", "", "", "", "", "", "", "", "", DateTime(0), DateTime(0), "")

  /** `ToVehicle()`: the object initialiser over what each parser call returns or throws. */
  function ToVehicle(m: VehicleMapper, titleCase: TitleCase): (r: Parsed<Vehicle>)
    ensures r.Ok? ==> RawUrlToId(m.url) == Ok(r.value.vehicleId)
    ensures r.Ok? ==> r.value.name == titleCase(m.name) && r.value.model == titleCase(m.model)
    ensures r.Ok? ==> r.value.manufacturer == titleCase(m.manufacturer) && r.value.vehicleClass == titleCase(m.vehicleClass)
    ensures r.Ok? ==> RawTextToDecimalNullable(m.costInCredits) == Ok(r.value.costInCredits)
    ensures r.Ok? ==> RawTextToDecimalNullable(m.length) == Ok(r.value.length)
    ensures r.Ok? ==> RawTextToIntNullable(m.maxAtmospheringSpeed) == Ok(r.value.maxAtmospheringSpeed)
    ensures r.Ok? ==> RawTextToIntNullable(m.crew) == Ok(r.value.crew)
    ensures r.Ok? ==> RawTextToIntNullable(m.passengers) == Ok(r.value.passengers)
    ensures r.Ok? ==> r.value.cargoCapacity == m.cargoCapacity && r.value.consumables == m.consumables
    ensures r.Ok? ==> r.value.created == m.created && r.value.edited == m.edited
  {
    Initialise(m, titleCase, RawUrlToId(m.url), RawTextToDecimalNullable(m.costInCredits),
               RawTextToDecimalNullable(m.length), RawTextToIntNullable(m.maxAtmospheringSpeed),
               RawTextToIntNullable(m.crew), RawTextToIntNullable(m.passengers))
  }

  /**
   * The initialiser, given the parser results in initialiser order: the
   * first that throws ends it.  The parsers are pure, so computing every
   * result up front gives what the C# initialiser gives.
   */
  function Initialise(m: VehicleMapper, titleCase: TitleCase, vehicleId: Parsed<int>,
                      costInCredits: Parsed<Option<Decimal>>, length: Parsed<Option<Decimal>>,
                      maxAtmospheringSpeed: Parsed<Option<int>>, crew: Parsed<Option<int>>,
                      passengers: Parsed<Option<int>>): (r: Parsed<Vehicle>)
    ensures r.Ok? ==> vehicleId == Ok(r.value.vehicleId) && costInCredits == Ok(r.value.costInCredits)
    ensures r.Ok? ==> length == Ok(r.value.length) && maxAtmospheringSpeed == Ok(r.value.maxAtmospheringSpeed)
    ensures r.Ok? ==> crew == Ok(r.value.crew) && passengers == Ok(r.value.passengers)
    ensures r.Ok? ==> r.value.name == titleCase(m.name) && r.value.model == titleCase(m.model)
    ensures r.Ok? ==> r.value.manufacturer == titleCase(m.manufacturer) && r.value.vehicleClass == titleCase(m.vehicleClass)
    ensures r.Ok? ==> r.value.cargoCapacity == m.cargoCapacity && r.value.consumables == m.consumables
    ensures r.Ok? ==> r.value.created == m.created && r.value.edited == m.edited
  {
    var vehicleId :- vehicleId;
    var costInCredits :- costInCredits;
    var length :- length;
    var maxAtmospheringSpeed :- maxAtmospheringSpeed;
    var crew :- crew;
    var passengers :- passengers;
    Ok(Vehicle(vehicleId, titleCase(m.name), titleCase(m.model), titleCase(m.manufacturer),
               costInCredits, length, maxAtmospheringSpeed, crew, passengers,
               m.cargoCapacity, m.consumables, titleCase(m.vehicleClass), m.created, m.edited))
  }

  /** The initialiser fails exactly when some parser result is an exception, and with the first. */
  lemma InitialiseFailsFirst(m: VehicleMapper, titleCase: TitleCase, vehicleId: Parsed<int>,
                             costInCredits: Parsed<Option<Decimal>>, length: Parsed<Option<Decimal>>,
                             maxAtmospheringSpeed: Parsed<Option<int>>, crew: Parsed<Option<int>>,
                             passengers: Parsed<Option<int>>)
    ensures var r := Initialise(m, titleCase, vehicleId, costInCredits, length, maxAtmospheringSpeed, crew, passengers);
      var e := FirstError([ErrorOf(vehicleId), ErrorOf(costInCredits), ErrorOf(length),
                           ErrorOf(maxAtmospheringSpeed), ErrorOf(crew), ErrorOf(passengers)]);
      (r.Err? <==> e.Some?) && (r.Err? ==> r.error == e.value)
  {
    var es := [ErrorOf(vehicleId), ErrorOf(costInCredits), ErrorOf(length),
               ErrorOf(maxAtmospheringSpeed), ErrorOf(crew), ErrorOf(passengers)];
    if vehicleId.Err? { FirstErrorAt(es, 0); }
    else if costInCredits.Err? { FirstErrorAt(es, 1); }
    else if length.Err? { FirstErrorAt(es, 2); }
    else if maxAtmospheringSpeed.Err? { FirstErrorAt(es, 3); }
    else if crew.Err? { FirstErrorAt(es, 4); }
    else if passengers.Err? { FirstErrorAt(es, 5); }
  }

  /** The exceptions of the parser calls, in initialiser order. */
  function Errors(m: VehicleMapper): seq<Option<ParseError>> {
    [ErrorOf(RawUrlToId(m.url)), ErrorOf(RawTextToDecimalNullable(m.costInCredits)),
     ErrorOf(RawTextToDecimalNullable(m.length)), ErrorOf(RawTextToIntNullable(m.maxAtmospheringSpeed)),
     ErrorOf(RawTextToIntNullable(m.crew)), ErrorOf(RawTextToIntNullable(m.passengers))]
  }

  /** The mapping fails exactly when some parser call throws, and with the first such exception. */
  lemma {:induction false} ToVehicleFailsFirst(m: VehicleMapper, titleCase: TitleCase)
    ensures ToVehicle(m, titleCase).Err? <==> FirstError(Errors(m)).Some?
    ensures ToVehicle(m, titleCase).Err? ==> ToVehicle(m, titleCase).error == FirstError(Errors(m)).value
  {
    InitialiseFailsFirst(m, titleCase, RawUrlToId(m.url), RawTextToDecimalNullable(m.costInCredits),
                         RawTextToDecimalNullable(m.length), RawTextToIntNullable(m.maxAtmospheringSpeed),
                         RawTextToIntNullable(m.crew), RawTextToIntNullable(m.passengers));
  }

  /**
   * A cost and a length of `unknown` give null fields, not an exception:
   * the mapping succeeds when the other parsed fields do.
   */
  lemma UnknownCostAndLength(m: VehicleMapper, titleCase: TitleCase)
    requires m.costInCredits == "unknown" && m.length == "unknown"
    requires RawUrlToId(m.url).Ok? && RawTextToIntNullable(m.maxAtmospheringSpeed).Ok?
    requires RawTextToIntNullable(m.crew).Ok? && RawTextToIntNullable(m.passengers).Ok?
    ensures ToVehicle(m, titleCase).Ok?
    ensures ToVehicle(m, titleCase).value.costInCredits == None && ToVehicle(m, titleCase).value.length == None
  {
    UnknownDecimal(m.length);
    InitialiseFailsFirst(m, titleCase, RawUrlToId(m.url), Ok(None), Ok(None),
                         RawTextToIntNullable(m.maxAtmospheringSpeed), RawTextToIntNullable(m.crew),
                         RawTextToIntNullable(m.passengers));
  }

  /** Cargo capacity and consumables are kept as text: whatever they hold, they cannot make the mapping throw. */
  lemma TextFieldsNeverThrow(m: VehicleMapper, titleCase: TitleCase, cargo: string, consumables: string)
    ensures ToVehicle(m.(cargoCapacity := cargo, consumables := consumables), titleCase).Ok? == ToVehicle(m, titleCase).Ok?
  {
    var n := m.(cargoCapacity := cargo, consumables := consumables);
    ToVehicleFailsFirst(m, titleCase);
    ToVehicleFailsFirst(n, titleCase);
    assert Errors(n) == Errors(m);
  }

  /** A default-constructed mapper throws: its empty `Url` has an empty last segment. */
  lemma DefaultThrows(titleCase: TitleCase)
    ensures ToVehicle(Default, titleCase) == Err(FormatException)
  {
    BlankFormatError("");
  }
}
