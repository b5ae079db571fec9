/**
 * `StarWarsClient/src/utils/DataTableFilterCache.ts`: the deferred filter
 * buffer of `useCachedFilterCallbacks`.  Filter widgets record values per
 * field and constraint index; the column's Apply button replays them through
 * PrimeReact's `filterApplyCallback`; Clear drops them.
 */
module DataTableFilterCache {
  import opened Wrappers
  import opened Dicts
  import opened Js

  /**
   * The part of PrimeReact's `ColumnFilterElementTemplateOptions` the buffer
   * uses: the constraint index, the committed filter value, and which
   * `filterApplyCallback` closure the options carry (an identifier, since the
   * closure itself belongs to PrimeReact).
   */
  datatype FilterOptions = FilterOptions(index: int, value: Value, applyCallback: nat)

  /** `FilterCallbackCached`. */
  datatype Cached = Cached(value: Value, options: FilterOptions)

  /** One `filterApplyCallback(value, index)` invocation. */
  datatype ApplyCall = ApplyCall(callback: nat, value: Value, index: int)

  /** The inner `Map<number, FilterCallbackCached>` of one field. */
  type FieldBuffer = Dict<int, Cached>

  /** The outer `Map<string, Map<number, FilterCallbackCached>>`. */
  type Buffer = Dict<string, FieldBuffer>

  /** The buffer after `setCallback(field, val, opts)`. */
  function AfterSet(b: Buffer, field: string, val: Value, opts: FilterOptions): Buffer {
    Put(b, field, Put(GetOr(b, field, []), opts.index, Cached(val, opts)))
  }

  function CallOf(entry: (int, Cached)): ApplyCall {
    ApplyCall(entry.1.options.applyCallback, entry.1.value, entry.0)
  }

  /** `forEach` over one field's map, in insertion order. */
  function CallsOf(fb: FieldBuffer): seq<ApplyCall>
    decreases |fb|
  {
    if |fb| == 0 then [] else CallsOf(fb[..|fb| - 1]) + [CallOf(fb[|fb| - 1])]
  }

  /** The calls `applyCallbacks(field)` makes. */
  function PendingCalls(b: Buffer, field: string): seq<ApplyCall> {
    match Get(b, field)
    case None => []
    case Some(fb) => CallsOf(fb)
  }

  /** One call per stored entry, in the order of the entries, each with that entry's value, options and index. */
  lemma {:induction false} CallsOfEntries(fb: FieldBuffer)
    ensures |CallsOf(fb)| == |fb|
    ensures forall i :: 0 <= i < |fb| ==>
      CallsOf(fb)[i] == ApplyCall(fb[i].1.options.applyCallback, fb[i].1.value, fb[i].0)
    decreases |fb|
  {
    if |fb| > 0 {
      CallsOfEntries(fb[..|fb| - 1]);
    }
  }

  function Indices(calls: seq<ApplyCall>): seq<int> {
    seq(|calls|, i requires 0 <= i < |calls| => calls[i].index)
  }

  /** `setCallback` stores the latest value and options under `(field, opts.index)`. */
  lemma SetStoresLatest(b: Buffer, field: string, val: Value, opts: FilterOptions)
    ensures Get(AfterSet(b, field, val, opts), field).Some?
    ensures Get(Get(AfterSet(b, field, val, opts), field).value, opts.index) == Some(Cached(val, opts))
    ensures forall i :: i != opts.index ==>
      Get(Get(AfterSet(b, field, val, opts), field).value, i) == Get(GetOr(b, field, []), i)
  {
  }

  /** `setCallback` on one field leaves every other field's entries as they were. */
  lemma SetKeepsOtherFields(b: Buffer, field: string, val: Value, opts: FilterOptions, other: string)
    requires other != field
    ensures Get(AfterSet(b, field, val, opts), other) == Get(b, other)
  {
  }

  /**
   * Apply order is first-set order: re-setting an index keeps its place and
   * setting a new index appends it.
   */
  lemma SetApplyOrder(b: Buffer, field: string, val: Value, opts: FilterOptions)
    ensures Indices(PendingCalls(AfterSet(b, field, val, opts), field)) ==
      var before := Indices(PendingCalls(b, field));
      if HasKey(GetOr(b, field, []), opts.index) then before else before + [opts.index]
  {
    var fb := GetOr(b, field, []);
    var fb' := Put(fb, opts.index, Cached(val, opts));
    assert PendingCalls(b, field) == CallsOf(fb);
    assert PendingCalls(AfterSet(b, field, val, opts), field) == CallsOf(fb');
    IndicesAreKeys(fb);
    IndicesAreKeys(fb');
  }

  /** The calls carry the entries' indices in the order of the entries. */
  lemma IndicesAreKeys(fb: FieldBuffer)
    ensures Indices(CallsOf(fb)) == Keys(fb)
  {
    CallsOfEntries(fb);
  }

  /** Setting index 1 and then index 0 replays index 1 first. */
  lemma FirstSetOrderExample(field: string, v1: Value, v0: Value, o1: FilterOptions, o0: FilterOptions)
    requires o1.index == 1 && o0.index == 0
    ensures Indices(PendingCalls(AfterSet(AfterSet([], field, v1, o1), field, v0, o0), field)) == [1, 0]
  {
    SetApplyOrder([], field, v1, o1);
    SetApplyOrder(AfterSet([], field, v1, o1), field, v0, o0);
  }

  /** A field with no buffer entry produces no calls. */
  lemma ApplyWithoutEntries(b: Buffer, field: string)
    requires !HasKey(b, field)
    ensures PendingCalls(b, field) == []
  {
  }

  /** `clearCallbacks(field)` drops that field's entries and no others. */
  lemma ClearDropsField(b: Buffer, field: string)
    ensures PendingCalls(Remove(b, field), field) == []
    ensures forall other :: other != field ==> Get(Remove(b, field), other) == Get(b, other)
  {
  }

  /** The `useRef` cell holding the nested map. */
  class FilterCallbackCache {
    var callbacks: Buffer

    constructor ()
      ensures callbacks == []
    {
      callbacks := [];
    }

    /** `setCallback(field, val, opts)`. */
    method SetCallback(field: string, val: Value, opts: FilterOptions)
      modifies this
      ensures callbacks == AfterSet(old(callbacks), field, val, opts)
    {
      if !HasKey(callbacks, field) {
        PutPut(callbacks, field, [], Put([], opts.index, Cached(val, opts)));
        callbacks := Put(callbacks, field, []);
      }
      var inner := Get(callbacks, field).value;
      callbacks := Put(callbacks, field, Put(inner, opts.index, Cached(val, opts)));
    }

    /** `applyCallbacks(field)`: replays the field's entries and leaves the buffer as it is. */
    method ApplyCallbacks(field: string) returns (calls: seq<ApplyCall>)
      ensures calls == PendingCalls(callbacks, field)
    {
      var found := Get(callbacks, field);
      if found.None? {
        return [];
      }
      var fb := found.value;
      calls := [];
      var i := 0;
      while i < |fb|
        invariant 0 <= i <= |fb|
        invariant calls == CallsOf(fb[..i])
      {
        assert fb[..i + 1][..i] == fb[..i];
        calls := calls + [CallOf(fb[i])];
        i := i + 1;
      }
      assert fb[..|fb|] == fb;
    }

    /** `clearCallbacks(field)`. */
    method ClearCallbacks(field: string)
      modifies this
      ensures callbacks == Remove(old(callbacks), field)
    {
      callbacks := Remove(callbacks, field);
    }
  }
}
