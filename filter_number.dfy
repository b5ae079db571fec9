/**
 * `StarWarsClient/src/components/FilterElement/FilterNumber.tsx`: the
 * numeric range filter widget.  It keeps `min`/`max` drafts and, on each
 * edit, records the `[min, max]` pair in the deferred filter buffer.
 */
module FilterNumber {
  import opened Wrappers
  import opened Js
  import opened Dicts
  import opened DataTableFilterCache

  /** `options.value?.[i] ?? null`. */
  function InitialDraft(committed: Value, i: nat): (r: Value)
    ensures committed.Arr? && i < |committed.items| && !Nullish(committed.items[i]) ==> r == committed.items[i]
    ensures !(committed.Arr? || committed.Str?) ==> r == Null
    ensures committed.Arr? && i >= |committed.items| ==> r == Null
  {
    Coalesce(ElementAt(committed, i), Null)
  }

  /** `[e.value, max || Infinity]`. */
  function MinEditPair(newMin: Value, max: Value): (r: Value)
    ensures r.Arr? && |r.items| == 2 && r.items[0] == newMin
    ensures Truthy(max) ==> r.items[1] == max
    ensures !Truthy(max) ==> r.items[1] == Num(PosInfinity)
  {
    Arr([newMin, Or(max, Num(PosInfinity))])
  }

  /** `[min || -Infinity, e.value]`. */
  function MaxEditPair(min: Value, newMax: Value): (r: Value)
    ensures r.Arr? && |r.items| == 2 && r.items[1] == newMax
    ensures Truthy(min) ==> r.items[0] == min
    ensures !Truthy(min) ==> r.items[0] == Num(NegInfinity)
  {
    Arr([Or(min, Num(NegInfinity)), newMax])
  }

  /** A bound of 0, like an empty one, is recorded as the infinite sentinel. */
  lemma ZeroBoundBecomesInfinite(v: Value)
    ensures MinEditPair(v, Zero) == Arr([v, Num(PosInfinity)])
    ensures MinEditPair(v, Null) == Arr([v, Num(PosInfinity)])
    ensures MaxEditPair(Zero, v) == Arr([Num(NegInfinity), v])
    ensures MaxEditPair(Null, v) == Arr([Num(NegInfinity), v])
  {
  }

  /** The widget's own state: its props and its two drafts. */
  class NumberFilterWidget {
    const field: string
    var options: FilterOptions
    const cache: FilterCallbackCache
    var min: Value
    var max: Value

    /** First render: both drafts come from the committed value. */
    constructor (field: string, options: FilterOptions, cache: FilterCallbackCache)
      ensures this.field == field && this.options == options && this.cache == cache
      ensures min == InitialDraft(options.value, 0) && max == InitialDraft(options.value, 1)
    {
      this.field := field;
      this.options := options;
      this.cache := cache;
      min := InitialDraft(options.value, 0);
      max := InitialDraft(options.value, 1);
    }

    /** The Min input's `onChange`: `setMin(v)` and the pair with the current max. */
    method OnMinChange(v: Value)
      modifies this, cache
      ensures min == v && max == old(max) && options == old(options)
      ensures cache.callbacks == AfterSet(old(cache.callbacks), field, MinEditPair(v, old(max)), options)
    {
      min := v;
      cache.SetCallback(field, MinEditPair(v, max), options);
    }

    /** The Max input's `onChange`: `setMax(v)` and the pair with the current min. */
    method OnMaxChange(v: Value)
      modifies this, cache
      ensures max == v && min == old(min) && options == old(options)
      ensures cache.callbacks == AfterSet(old(cache.callbacks), field, MaxEditPair(old(min), v), options)
    {
      max := v;
      cache.SetCallback(field, MaxEditPair(min, v), options);
    }

    /**
     * A re-render with new options: each `useEffect` resyncs its draft when its
     * dependency `options.value?.[i]` differs from the one of the previous render.
     */
    method Rerender(next: FilterOptions)
      modifies this
      ensures options == next
      ensures min == if ElementAt(next.value, 0) != ElementAt(old(options).value, 0) then InitialDraft(next.value, 0) else old(min)
      ensures max == if ElementAt(next.value, 1) != ElementAt(old(options).value, 1) then InitialDraft(next.value, 1) else old(max)
    {
      if ElementAt(next.value, 0) != ElementAt(options.value, 0) {
        min := InitialDraft(next.value, 0);
      }
      if ElementAt(next.value, 1) != ElementAt(options.value, 1) {
        max := InitialDraft(next.value, 1);
      }
      options := next;
    }
  }

  /**
   * Typing 10 into Min of a fresh widget on an empty filter records
   * `[10, Infinity]` for the widget's constraint index.
   */
  method MinOnlyExample(field: string, options: FilterOptions) returns (w: NumberFilterWidget)
    requires options.value == Null
    ensures Get(w.cache.callbacks, field).Some?
    ensures Get(Get(w.cache.callbacks, field).value, options.index)
      == Some(Cached(Arr([Num(Finite(10.0)), Num(PosInfinity)]), options))
  {
    var cache := new FilterCallbackCache();
    w := new NumberFilterWidget(field, options, cache);
    w.OnMinChange(Num(Finite(10.0)));
    SetStoresLatest([], field, Arr([Num(Finite(10.0)), Num(PosInfinity)]), options);
  }
}
