/**
 * The JavaScript values the grid engine handles, with the operators it
 * applies to them: truthiness, `??`, `||`, `===`, property access and
 * element access.
 */
module Js {
  import opened Wrappers
  import opened Dicts
  import opened Strings

  /** A JS number other than NaN; `Infinity` and `-Infinity` are sentinels. */
  datatype Number = Finite(r: real) | PosInfinity | NegInfinity

  /**
   * A JS `Date` read through its local-time getters (`getFullYear`,
   * `getMonth` (0-based), `getDate`, `getHours`, `getMinutes`, `getSeconds`),
   * or an Invalid Date, whose getters all return NaN.
   */
  datatype JsDate =
    | ValidDate(year: int, month0: int, day: int, hours: int, minutes: int, seconds: int)
    | InvalidDate

  datatype Value =
    | Null
    | Undefined
    | Num(n: Number)
    | Str(s: string)
    | Bool(b: bool)
    | DateV(d: JsDate)
    | Arr(items: seq<Value>)
    | Obj(fields: Dict<string, Value>)

  /** A plain JS object: field names in insertion order. */
  type Record = Dict<string, Value>

  const Zero: Value := Num(Finite(0.0))

  /** JS truthiness: `null`, `undefined`, `0`, `''` and `false` are falsy; NaN is not modelled. */
  predicate Truthy(v: Value) {
    match v
    case Null => false
    case Undefined => false
    case Num(n) => n != Finite(0.0)
    case Str(s) => s != ""
    case Bool(b) => b
    case _ => true
  }

  predicate Nullish(v: Value) {
    v.Null? || v.Undefined?
  }

  /** `a ?? b`. */
  function Coalesce(a: Value, b: Value): (r: Value)
    ensures !Nullish(a) ==> r == a
    ensures Nullish(a) ==> r == b
  {
    if Nullish(a) then b else a
  }

  /** `a || b`. */
  function Or(a: Value, b: Value): (r: Value)
    ensures Truthy(a) ==> r == a
    ensures !Truthy(a) ==> r == b
  {
    if Truthy(a) then a else b
  }

  /**
   * `a === b` on primitives.  Arrays, plain objects and dates are compared by
   * reference in JS.  A `Value` carries no identity, so the model takes such
   * values as never strictly equal: right for values from distinct sources
   * (a freshly parsed response against a table row), but a row's own array,
   * object or date compared with itself is strictly equal in JS.
   */
  predicate StrictEquals(a: Value, b: Value) {
    !(a.Arr? || a.Obj? || a.DateV?) && a == b
  }

  /** `obj[k]`: a missing property reads as `undefined`. */
  function Prop(obj: Record, k: string): (r: Value)
    ensures HasKey(obj, k) ==> Get(obj, k) == Some(r)
    ensures !HasKey(obj, k) ==> r == Undefined
  {
    GetOr(obj, k, Undefined)
  }

  /** `v?.[i]`: array element, string character, or `undefined`. */
  function ElementAt(v: Value, i: nat): (r: Value)
    ensures v.Arr? && i < |v.items| ==> r == v.items[i]
    ensures v.Str? && i < |v.s| ==> r == Str([v.s[i]])
    ensures !((v.Arr? && i < |v.items|) || (v.Str? && i < |v.s|)) ==> r == Undefined
  {
    match v
    case Arr(items) => if i < |items| then items[i] else Undefined
    case Str(s) => if i < |s| then Str([s[i]]) else Undefined
    case _ => Undefined
  }

  /** The own enumerable properties of an array or string: `'0'`, `'1'`, … in index order. */
  function IndexEntries(items: seq<Value>): (r: Record)
    ensures |r| == |items|
    ensures forall i :: 0 <= i < |items| ==> r[i] == (NatToString(i), items[i])
  {
    seq(|items|, i requires 0 <= i < |items| => (NatToString(i), items[i]))
  }

  function Chars(s: string): (r: seq<Value>)
    ensures |r| == |s|
  {
    seq(|s|, i requires 0 <= i < |s| => Str([s[i]]))
  }

  /**
   * `v[k]` on a value that is neither null nor undefined: an object's
   * property, an array's or string's index property or `length`; other
   * primitives have no data properties.
   */
  function Member(v: Value, k: string): (r: Value)
    requires !Nullish(v)
    ensures v.Obj? ==> r == Prop(v.fields, k)
    ensures v.Arr? && k == "length" ==> r == Num(Finite(|v.items| as real))
  {
    match v
    case Obj(fields) => Prop(fields, k)
    case Arr(items) => if k == "length" then Num(Finite(|items| as real)) else Prop(IndexEntries(items), k)
    case Str(s) => if k == "length" then Num(Finite(|s| as real)) else Prop(IndexEntries(Chars(s)), k)
    case _ => Undefined
  }

  /** The properties `{...v}` copies: own enumerable ones; none for null, undefined, numbers, booleans and dates. */
  function Spread(v: Value): (r: Record)
    ensures v.Obj? ==> r == v.fields
    ensures !(v.Obj? || v.Arr? || v.Str?) ==> r == []
  {
    match v
    case Obj(fields) => fields
    case Arr(items) => IndexEntries(items)
    case Str(s) => IndexEntries(Chars(s))
    case _ => []
  }

  /** `typeof v === 'number'`. */
  predicate IsNumber(v: Value) {
    v.Num?
  }
}
