/**
 * `StarWarsClient/src/utils/DateUtils.ts`: `convertStringDates`.  The outer
 * `data.map` is a function over the items; the per-item loop that assigns
 * `result[k]` on the shallow copy is a method proved against the function
 * `Converted`.  `new Date(v)` is the parameter `toDate`.
 */
module DateUtils {
  import opened Wrappers
  import opened Dicts
  import opened Js

  /**
   * The shallow copy `{...item}` after the loop has run over `keys`: each
   * listed key whose value in the ORIGINAL item is neither null nor
   * undefined is set to `new Date(v)`.  Reading a property of null throws, so
   * a nullish item is converted only with no keys.
   */
  function Converted(item: Value, keys: seq<string>, toDate: Value -> JsDate): Record
    requires !Nullish(item) || |keys| == 0
    decreases |keys|
  {
    if |keys| == 0 then Spread(item)
    else
      var prev := Converted(item, keys[..|keys| - 1], toDate);
      var k := keys[|keys| - 1];
      var v := Member(item, k);
      if Nullish(v) then prev else Put(prev, k, DateV(toDate(v)))
  }

  /** The callback of `data.map`: copy, then the `for (const k of keys)` loop. */
  method ConvertItem(item: Value, keys: seq<string>, toDate: Value -> JsDate) returns (result: Record)
    requires !Nullish(item) || |keys| == 0
    ensures result == Converted(item, keys, toDate)
  {
    result := Spread(item);
    for i := 0 to |keys|
      invariant result == Converted(item, keys[..i], toDate)
    {
      var k := keys[i];
      assert keys[..i + 1][..i] == keys[..i];
      var v := Member(item, k);
      if !Nullish(v) {
        result := Put(result, k, DateV(toDate(v)));
      }
    }
    assert keys[..|keys|] == keys;
  }

  /** `convertStringDates(data, keys)`. */
  function ConvertStringDates(data: seq<Value>, keys: seq<string>, toDate: Value -> JsDate): (r: seq<Record>)
    requires |keys| == 0 || forall i :: 0 <= i < |data| ==> !Nullish(data[i])
    ensures |r| == |data|
    ensures forall i :: 0 <= i < |data| ==> r[i] == Converted(data[i], keys, toDate)
  {
    seq(|data|, i requires 0 <= i < |data| => Converted(data[i], keys, toDate))
  }

  /**
   * On an object item: the copy has the item's keys in the item's order; a
   * key that is listed and holds a non-nullish value becomes
   * `new Date(value)`; every other key keeps its value.
   */
  lemma {:induction false} ConvertedObject(fields: Record, keys: seq<string>, toDate: Value -> JsDate, k: string)
    ensures Keys(Converted(Obj(fields), keys, toDate)) == Keys(fields)
    ensures Get(Converted(Obj(fields), keys, toDate), k) ==
      if k in keys && !Nullish(Prop(fields, k)) then Some(DateV(toDate(Prop(fields, k)))) else Get(fields, k)
    decreases |keys|
  {
    if |keys| > 0 {
      var init := keys[..|keys| - 1];
      var last := keys[|keys| - 1];
      ConvertedObject(fields, init, toDate, k);
      ConvertedObject(fields, init, toDate, last);
      SplitLast(keys);
      var prev := Converted(Obj(fields), init, toDate);
      if !Nullish(Prop(fields, last)) {
        assert HasKey(prev, last);
      }
    }
  }

  /** With no keys the copy equals the item field for field. */
  lemma NoKeysCopies(fields: Record, toDate: Value -> JsDate)
    ensures Converted(Obj(fields), [], toDate) == fields
  {
  }

  /** A nullish value at a listed key, and any unlisted key, is left as it was. */
  lemma UntouchedKeys(fields: Record, keys: seq<string>, toDate: Value -> JsDate, k: string)
    requires k !in keys || Nullish(Prop(fields, k))
    ensures Get(Converted(Obj(fields), keys, toDate), k) == Get(fields, k)
  {
    ConvertedObject(fields, keys, toDate, k);
  }

  /** The copy of a JS object is again a JS object: no key twice. */
  lemma {:induction false} ConvertedDistinct(item: Value, keys: seq<string>, toDate: Value -> JsDate)
    requires !Nullish(item) || |keys| == 0
    requires DistinctKeys(Spread(item))
    ensures DistinctKeys(Converted(item, keys, toDate))
    decreases |keys|
  {
    if |keys| > 0 {
      ConvertedDistinct(item, keys[..|keys| - 1], toDate);
    }
  }
}
