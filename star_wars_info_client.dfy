/**
 * `StarWarsClient/src/utils/StarWarsInfoClient.ts`: the resource URL of a
 * model, its date fields, and the three requests.  The network is a
 * `Response` parameter and a request's effect is its `Outcome`: what the
 * success callback receives, or the failure that replaces it.
 * `import.meta.env.VITE_API_URL` is the parameter `base`.
 */
module StarWarsInfoClient {
  import opened Wrappers
  import opened Dicts
  import opened Js
  import opened Strings
  import opened FilterTypes
  import opened DataTableColumn
  import opened DateUtils

  /** The object `getApiUrl` returns. */
  datatype ApiUrl = ApiUrl(fullUrl: string, path: string)

  datatype HttpMethod = GET | PUT | POST | DELETE

  /** A request: method, URL and the `JSON.stringify`-ed body, if any. */
  datatype Request = Request(verb: HttpMethod, url: string, body: Option<Value>)

  /** What `response.json()` makes of the body: a JSON value or a parse failure. */
  datatype Body = Unparsable | Json(value: Value)

  /** `fetch`'s promise: rejected (network failure) or a response with its `ok` flag and body. */
  datatype Response = NetworkFailure | Received(ok: bool, body: Body)

  /**
   * The effect of a request: the success callback runs with a value; an
   * error is caught and logged; an error is thrown inside the promise chain;
   * or the fetch rejection is left unhandled.
   */
  datatype Outcome<T> = Delivered(value: T) | Logged(message: string) | Thrown(message: string) | Unhandled

  /** `getApiUrl(modelDataKey)`: the first `_id` is removed. */
  function GetApiUrl(base: string, modelDataKey: string): (r: ApiUrl)
    ensures r.fullUrl == base + "/" + r.path
    ensures |r.path| <= |modelDataKey|
  {
    var path := ReplaceFirst(modelDataKey, "_id", "");
    ApiUrl(base + "/" + path, path)
  }

  /** A key `a + '_id' + b` whose `a` has no `_` loses exactly that `_id`; the full URL is `base/path`. */
  lemma ApiPathDropsFirstId(base: string, a: string, b: string)
    requires '_' !in a
    ensures GetApiUrl(base, a + "_id" + b).path == a + b
    ensures GetApiUrl(base, a + "_id" + b).fullUrl == base + "/" + a + b
  {
    ReplaceFirstAfter(a, "_id", b, "");
    assert a + "" + b == a + b;
  }

  /** `getApiUrl('starship_id')` has path `starship`. */
  lemma StarshipApiUrl(base: string, key: string)
    requires key == "starship_id"
    ensures GetApiUrl(base, key) == ApiUrl(base + "/" + "starship", "starship")
  {
    var a := "starship";
    StarshipPieces(key, a);
    ApiPathDropsFirstId(base, a, "");
  }

  lemma StarshipPieces(key: string, a: string)
    requires key == "starship_id" && a == "starship"
    ensures key == a + "_id" + "" && '_' !in a && a + "" == a
  {
  }

  /** Only the first `_id` goes, wherever it is: `film_identity_id` becomes `filmentity_id`. */
  lemma FirstIdOnly(base: string, key: string)
    requires key == "film_identity_id"
    ensures GetApiUrl(base, key).path == "filmentity_id"
  {
    var a, b := "film", "entity_id";
    FilmIdentityPieces(key, a, b);
    ApiPathDropsFirstId(base, a, b);
  }

  lemma FilmIdentityPieces(key: string, a: string, b: string)
    requires key == "film_identity_id" && a == "film" && b == "entity_id"
    ensures key == a + "_id" + b && '_' !in a && a + b == "filmentity_id"
  {
  }

  /** A key with no `_id` is the path as it is. */
  lemma KeyWithoutId(base: string, key: string)
    requires forall i :: !IsAt(key, "_id", i)
    ensures GetApiUrl(base, key).path == key
  {
  }

  /** `dataType === 'date' || kind === 'date'`. */
  predicate IsDateField(c: ColumnSpec) {
    c.dataType == Some("date") || c.kind == Date
  }

  /** `getDateFields(modelSpec)`: `Object.keys(modelSpec).filter(...)`. */
  function GetDateFields(spec: ModelSpec): (r: seq<string>)
    ensures forall k :: k in r <==> exists p :: p in spec && p.0 == k && IsDateField(p.1)
    decreases |spec|
  {
    if |spec| == 0 then []
    else
      var rest := GetDateFields(spec[1..]);
      assert forall p :: p in spec[1..] ==> p in spec;
      assert forall p :: p in spec ==> p == spec[0] || p in spec[1..];
      (if IsDateField(spec[0].1) then [spec[0].0] else []) + rest
  }

  /** The filter keeps spec order: it distributes over concatenation. */
  lemma {:induction false} DateFieldsAppend(a: ModelSpec, b: ModelSpec)
    ensures GetDateFields(a + b) == GetDateFields(a) + GetDateFields(b)
    decreases |a|
  {
    if |a| > 0 {
      DateFieldsAppend(a[1..], b);
      var head := if IsDateField(a[0].1) then [a[0].0] else [];
      assert (a + b)[0] == a[0];
      assert (a + b)[1..] == a[1..] + b;
      assert GetDateFields(a + b) == head + (GetDateFields(a[1..]) + GetDateFields(b));
    } else {
      assert a + b == b;
    }
  }

  /** With distinct field names: a field is listed exactly when its spec says date by `dataType` or `kind`. */
  lemma DateFieldIff(spec: ModelSpec, k: string)
    requires DistinctKeys(spec)
    ensures k in GetDateFields(spec) <==> HasKey(spec, k) && IsDateField(Get(spec, k).value)
  {
    if k in GetDateFields(spec) {
      var p :| p in spec && p.0 == k && IsDateField(p.1);
      var j :| 0 <= j < |spec| && spec[j] == p;
      GetAt(spec, j);
    }
    if HasKey(spec, k) && IsDateField(Get(spec, k).value) {
      assert spec[Dicts.IndexOf(spec, k)] in spec;
    }
  }

  /** `newData[modelDataKey] ? 'PUT' : 'POST'`. */
  function UpdateMethod(newData: Value, modelDataKey: string): (m: HttpMethod)
    requires !Nullish(newData)
    ensures m == PUT <==> Truthy(Member(newData, modelDataKey))
    ensures m == POST <==> !Truthy(Member(newData, modelDataKey))
  {
    if Truthy(Member(newData, modelDataKey)) then PUT else POST
  }

  /** A key of 0, `''`, null, or no key at all, gives POST; any other number gives PUT. */
  lemma PostForFalsyKey(fields: Record, key: string)
    ensures (!HasKey(fields, key) || Prop(fields, key) in {Zero, Str(""), Null, Undefined}) ==>
      UpdateMethod(Obj(fields), key) == POST
    ensures Prop(fields, key).Num? && Prop(fields, key) != Zero ==> UpdateMethod(Obj(fields), key) == PUT
  {
  }

  /** `FetchData`: the request (a GET) and what reaches the success callback. */
  function FetchRequest(base: string, modelDataKey: string): Request {
    Request(GET, GetApiUrl(base, modelDataKey).fullUrl, None)
  }

  /**
   * The effect of `FetchData` for a response: the body must be a JSON array
   * (`data.map`) whose items can be read (`item[k]` throws on null when
   * there are date fields); anything else is caught and logged.  The status
   * is not looked at.
   */
  function FetchOutcome(spec: ModelSpec, modelDataKey: string, base: string, response: Response,
                        toDate: Value -> JsDate): Outcome<seq<Record>> {
    var message := "Error fetching " + GetApiUrl(base, modelDataKey).path + " data: ";
    var keys := GetDateFields(spec);
    match response
    case NetworkFailure => Logged(message)
    case Received(_, Unparsable) => Logged(message)
    case Received(_, Json(data)) =>
      if !data.Arr? then Logged(message)
      else if |keys| > 0 && exists i :: 0 <= i < |data.items| && Nullish(data.items[i]) then Logged(message)
      else Delivered(ConvertStringDates(data.items, keys, toDate))
  }

  /**
   * A fetch delivers exactly when the body is an array of non-nullish items
   * (or there are no date fields), whatever the status, and then delivers
   * every item converted, in order; every failure is logged.
   */
  lemma FetchDelivery(spec: ModelSpec, modelDataKey: string, base: string, response: Response,
                      toDate: Value -> JsDate)
    ensures FetchOutcome(spec, modelDataKey, base, response, toDate).Delivered? <==>
      response.Received? && response.body.Json? && response.body.value.Arr? &&
      (|GetDateFields(spec)| == 0 || forall i :: 0 <= i < |response.body.value.items| ==> !Nullish(response.body.value.items[i]))
    ensures FetchOutcome(spec, modelDataKey, base, response, toDate).Delivered? ==>
      var rows := FetchOutcome(spec, modelDataKey, base, response, toDate).value;
      var items := response.body.value.items;
      |rows| == |items| &&
      forall i :: 0 <= i < |items| ==> rows[i] == Converted(items[i], GetDateFields(spec), toDate)
    ensures !FetchOutcome(spec, modelDataKey, base, response, toDate).Delivered? ==>
      FetchOutcome(spec, modelDataKey, base, response, toDate) ==
        Logged("Error fetching " + GetApiUrl(base, modelDataKey).path + " data: ")
    ensures response.Received? ==>
      FetchOutcome(spec, modelDataKey, base, response, toDate) ==
        FetchOutcome(spec, modelDataKey, base, Received(!response.ok, response.body), toDate)
  {
  }

  /** `UpdateData`: a PUT or POST of `newData` to the model's URL. */
  function UpdateRequest(base: string, modelDataKey: string, newData: Value): (r: Request)
    requires !Nullish(newData)
    ensures r.url == GetApiUrl(base, modelDataKey).fullUrl && r.body == Some(newData)
    ensures r.verb == UpdateMethod(newData, modelDataKey)
  {
    Request(UpdateMethod(newData, modelDataKey), GetApiUrl(base, modelDataKey).fullUrl, Some(newData))
  }

  /**
   * The effect of `UpdateData`: any JSON body is converted as one item
   * (`convertStringDates([updatedModel], …).at(0)`) and delivered, with no
   * check of `response.ok`; parse and network failures are logged.
   */
  function UpdateOutcome(spec: ModelSpec, modelDataKey: string, base: string, response: Response,
                         toDate: Value -> JsDate): Outcome<Record> {
    var message := "Error updating " + GetApiUrl(base, modelDataKey).path + " data: ";
    var keys := GetDateFields(spec);
    match response
    case NetworkFailure => Logged(message)
    case Received(_, Unparsable) => Logged(message)
    case Received(_, Json(updated)) =>
      if Nullish(updated) && |keys| > 0 then Logged(message)
      else Delivered(ConvertStringDates([updated], keys, toDate)[0])
  }

  /**
   * An update delivers the converted body for an error status as for a
   * success: a JSON error body sent with a 4xx or 5xx status reaches the
   * success callback as a row.
   */
  lemma UpdateIgnoresStatus(spec: ModelSpec, modelDataKey: string, base: string, body: Body,
                            toDate: Value -> JsDate)
    ensures UpdateOutcome(spec, modelDataKey, base, Received(false, body), toDate) ==
            UpdateOutcome(spec, modelDataKey, base, Received(true, body), toDate)
    ensures body.Json? && body.value.Obj? ==>
      UpdateOutcome(spec, modelDataKey, base, Received(false, body), toDate) ==
        Delivered(Converted(body.value, GetDateFields(spec), toDate))
  {
  }

  /** An update that fails before a JSON body arrives is logged and delivers nothing. */
  lemma UpdateFailureLogged(spec: ModelSpec, modelDataKey: string, base: string, response: Response,
                            toDate: Value -> JsDate)
    requires response.NetworkFailure? || response.body.Unparsable?
    ensures UpdateOutcome(spec, modelDataKey, base, response, toDate) ==
      Logged("Error updating " + GetApiUrl(base, modelDataKey).path + " data: ")
  {
  }

  /** `DeleteData`: a DELETE of `fullUrl + '/' + id`. */
  function DeleteRequest(base: string, modelDataKey: string, id: string): (r: Request)
    ensures r.verb == DELETE && r.body == None
    ensures r.url == GetApiUrl(base, modelDataKey).fullUrl + "/" + id
  {
    Request(DELETE, GetApiUrl(base, modelDataKey).fullUrl + "/" + id, None)
  }

  /** The effect of `DeleteData`: the callback only on `response.ok`; there is no `catch`. */
  function DeleteOutcome(modelDataKey: string, base: string, response: Response): (r: Outcome<()>)
    ensures r.Delivered? <==> response.Received? && response.ok
    ensures response.Received? && !response.ok ==>
      r == Thrown("Failed to delete " + GetApiUrl(base, modelDataKey).path + " data")
    ensures response.NetworkFailure? ==> r == Unhandled
  {
    match response
    case NetworkFailure => Unhandled
    case Received(ok, _) =>
      if ok then Delivered(()) else Thrown("Failed to delete " + GetApiUrl(base, modelDataKey).path + " data")
  }
}
