/**
 * `StarWarsClient/src/utils/DataTableColumn.tsx`: the column specification,
 * the data-key lookup, the default filter map and the filter state of
 * `useTableFilters`.
 */
module DataTableColumn {
  import opened Wrappers
  import opened Dicts
  import opened Js
  import opened FilterTypes

  /**
   * `ColumnSpec`.  The optional boolean flags are only ever tested for
   * truthiness, so an absent flag is `false`.
   */
  datatype ColumnSpec = ColumnSpec(
    kind: Kind,
    dataType: Option<string>,
    width: Option<string>,
    frozen: bool,
    decimalPlaces: Option<int>,
    operator: Option<Operator>,
    matchMode: Option<MatchMode>,
    selectItems: Option<seq<SelectItem>>,
    isDataKey: bool,
    isReadOnly: bool,
    isHidden: bool)

  /** `ModelSpec`: field name to column spec, in declaration order. */
  type ModelSpec = Dict<string, ColumnSpec>

  const NoDataKeyMessage: string := "No data key found in model spec"

  /** Position of the first field marked `isDataKey`, or -1. */
  function DataKeyIndex(spec: ModelSpec): (r: int)
    ensures -1 <= r < |spec|
    ensures r >= 0 ==> spec[r].1.isDataKey && forall j :: 0 <= j < r ==> !spec[j].1.isDataKey
    ensures r == -1 <==> forall j :: 0 <= j < |spec| ==> !spec[j].1.isDataKey
  {
    if |spec| == 0 then -1
    else if spec[0].1.isDataKey then 0
    else
      var r := DataKeyIndex(spec[1..]);
      if r < 0 then -1 else r + 1
  }

  /** The data key `getModelDataKey` returns, or the error it throws. */
  function DataKeyOf(spec: ModelSpec): Result<string, string> {
    var i := DataKeyIndex(spec);
    if i < 0 then Err(NoDataKeyMessage) else Ok(spec[i].0)
  }

  /** The first marked field is the data key, whatever is marked after it. */
  lemma DataKeyIsFirstMarked(spec: ModelSpec, i: nat)
    requires i < |spec| && spec[i].1.isDataKey
    requires forall j :: 0 <= j < i ==> !spec[j].1.isDataKey
    ensures DataKeyOf(spec) == Ok(spec[i].0)
  {
  }

  /** `getModelDataKey`: the early-return loop over `Object.entries(spec)`. */
  method GetModelDataKey(spec: ModelSpec) returns (r: Result<string, string>)
    ensures r == DataKeyOf(spec)
    ensures r.Err? <==> forall j :: 0 <= j < |spec| ==> !spec[j].1.isDataKey
    ensures r.Err? ==> r.error == NoDataKeyMessage
  {
    var i := 0;
    while i < |spec|
      invariant 0 <= i <= |spec|
      invariant forall j :: 0 <= j < i ==> !spec[j].1.isDataKey
    {
      if spec[i].1.isDataKey {
        return Ok(spec[i].0);
      }
      i := i + 1;
    }
    return Err(NoDataKeyMessage);
  }

  /** What `defaultConstraint` returns: one constraint object, or an array of them. */
  datatype BaseConstraint = OneBase(c: Constraint) | ListBase(cs: seq<Constraint>)

  /** `defaultConstraint`: every default value is `null`. */
  function DefaultConstraint(kind: Kind): (r: BaseConstraint)
    ensures r.ListBase? <==> kind == Date
    ensures r.OneBase? ==> r.c.value == Null
    ensures r.ListBase? ==> forall i :: 0 <= i < |r.cs| ==> r.cs[i].value == Null
  {
    match kind
    case Id => OneBase(Constraint(Null, Equals))
    case Text => OneBase(Constraint(Null, Contains))
    case Number => OneBase(Constraint(Null, Between))
    case Date => ListBase([Constraint(Null, DateAfter), Constraint(Null, DateBefore)])
    case Dropdown => OneBase(Constraint(Null, Equals))
    case Multiselect => OneBase(Constraint(Null, In))
    case Boolean => OneBase(Constraint(Null, Equals))
  }

  /** `defaultOperator`. */
  function DefaultOperator(kind: Kind): (r: Operator)
    ensures r == Or <==> kind == Dropdown || kind == Boolean
  {
    match kind
    case Dropdown => Or
    case Boolean => Or
    case _ => And
  }

  /** The match mode a single-value kind falls back to when there is no override. */
  function SingleDefaultMode(kind: Kind): MatchMode {
    match kind
    case Multiselect => In
    case _ => Equals
  }

  /** The entry the loop body of `buildDefaultFilters` stores for one field. */
  function EntryFor(def: ColumnSpec): (r: FieldFilter)
    ensures (def.kind == Id || def.kind == Text) ==>
      r == Operated(def.operator.GetOr(And),
                    [Constraint(Null, def.matchMode.GetOr(if def.kind == Id then Equals else Contains))])
    ensures def.kind == Date ==>
      r == Operated(def.operator.GetOr(And), [Constraint(Null, DateAfter), Constraint(Null, DateBefore)])
    ensures def.kind == Number ==> r == Single(Constraint(Null, Between))
    ensures (def.kind == Dropdown || def.kind == Multiselect || def.kind == Boolean) ==>
      r == Single(Constraint(Null, def.matchMode.GetOr(SingleDefaultMode(def.kind))))
  {
    var operator := def.operator.GetOr(DefaultOperator(def.kind));
    var base := DefaultConstraint(def.kind);
    var constraint :=
      if base.ListBase? then base.cs
      else [Constraint(base.c.value, def.matchMode.GetOr(base.c.matchMode))];
    if def.kind == Id || def.kind == Text || def.kind == Date then
      Operated(operator, constraint)
    else if def.kind == Number then
      Single(Constraint(Null, Between))
    else
      Single(constraint[0])
  }

  const GlobalDefault: FieldFilter := Single(Constraint(Null, Contains))

  /** The map `buildDefaultFilters` has built after the given fields. */
  function DefaultFilters(spec: ModelSpec): FilterMeta
    decreases |spec|
  {
    if |spec| == 0 then [("global", GlobalDefault)]
    else Put(DefaultFilters(spec[..|spec| - 1]), spec[|spec| - 1].0, EntryFor(spec[|spec| - 1].1))
  }

  /** `buildDefaultFilters`: start from the global entry and assign one entry per field. */
  method BuildDefaultFilters(spec: ModelSpec) returns (meta: FilterMeta)
    ensures meta == DefaultFilters(spec)
  {
    meta := [("global", GlobalDefault)];
    var i := 0;
    while i < |spec|
      invariant 0 <= i <= |spec|
      invariant meta == DefaultFilters(spec[..i])
    {
      var (field, def) := spec[i];
      assert spec[..i + 1][..i] == spec[..i];
      meta := Put(meta, field, EntryFor(def));
      i := i + 1;
    }
    assert spec[..|spec|] == spec;
  }

  /** A field of a distinct-key spec is not among the keys before it. */
  lemma LastKeyIsNew(spec: ModelSpec)
    requires |spec| > 0 && DistinctKeys(spec)
    ensures !HasKey(spec[..|spec| - 1], spec[|spec| - 1].0)
    ensures DistinctKeys(spec[..|spec| - 1])
  {
  }

  /**
   * Every field gets the entry `EntryFor` gives it; `global` keeps the
   * CONTAINS default unless a field is itself named `global`; nothing else is
   * present.
   */
  lemma {:induction false} DefaultFiltersGet(spec: ModelSpec, k: string)
    requires DistinctKeys(spec)
    ensures Get(DefaultFilters(spec), k) ==
      if HasKey(spec, k) then Some(EntryFor(Get(spec, k).value))
      else if k == "global" then Some(GlobalDefault)
      else None
    decreases |spec|
  {
    if |spec| > 0 {
      var n := |spec| - 1;
      var p := spec[..n];
      LastKeyIsNew(spec);
      DefaultFiltersGet(p, k);
      SplitLast(spec);
      GetStep(DefaultFilters(p), p, k, spec[n].0, spec[n].1);
    }
  }

  /** One field's step of `DefaultFiltersGet`: the new field's entry is added and nothing else moves. */
  lemma GetStep(d: FilterMeta, p: ModelSpec, k: string, field: string, def: ColumnSpec)
    requires !HasKey(p, field)
    requires Get(d, k) ==
      if HasKey(p, k) then Some(EntryFor(Get(p, k).value))
      else if k == "global" then Some(GlobalDefault)
      else None
    ensures Get(Put(d, field, EntryFor(def)), k) ==
      if HasKey(p + [(field, def)], k) then Some(EntryFor(Get(p + [(field, def)], k).value))
      else if k == "global" then Some(GlobalDefault)
      else None
  {
    GetSnoc(p, field, def, k);
  }

  /** `ks` without the entries equal to `x`, order kept. */
  function Without(ks: seq<string>, x: string): (r: seq<string>)
    ensures x !in r
  {
    if |ks| == 0 then []
    else Without(ks[..|ks| - 1], x) + (if ks[|ks| - 1] == x then [] else [ks[|ks| - 1]])
  }

  /** The key order of the default map: `global` first, then the fields in spec order. */
  lemma {:induction false} DefaultFiltersKeys(spec: ModelSpec)
    requires DistinctKeys(spec)
    ensures Keys(DefaultFilters(spec)) == ["global"] + Without(Keys(spec), "global")
    decreases |spec|
  {
    if |spec| > 0 {
      var n := |spec| - 1;
      var p, k := spec[..n], spec[n].0;
      LastKeyIsNew(spec);
      DefaultFiltersKeys(p);
      DefaultFiltersKeySet(p, k);
      assert Keys(spec) == Keys(p) + [k] by {
        SplitLast(spec);
        KeysSnoc(p, k, spec[n].1);
      }
      WithoutSnoc(Keys(p), k, "global");
      KeysStep(Keys(DefaultFilters(p)), Without(Keys(p), "global"), k, HasKey(DefaultFilters(p), k));
    }
  }

  /** One field's step of the key order: a new key is appended, `global` keeps its place. */
  lemma KeysStep(before: seq<string>, rest: seq<string>, k: string, present: bool)
    requires before == ["global"] + rest
    requires present <==> k == "global"
    ensures (if present then before else before + [k]) == ["global"] + (rest + if k == "global" then [] else [k])
  {
  }

  /** No key of the default map occurs twice. */
  lemma {:induction false} DefaultFiltersDistinct(spec: ModelSpec)
    ensures DistinctKeys(DefaultFilters(spec))
    decreases |spec|
  {
    if |spec| > 0 {
      DefaultFiltersDistinct(spec[..|spec| - 1]);
    }
  }

  lemma WithoutSnoc(ks: seq<string>, y: string, x: string)
    ensures Without(ks + [y], x) == Without(ks, x) + (if y == x then [] else [y])
  {
    assert (ks + [y])[..|ks|] == ks;
  }

  /** The default map holds exactly `global` and the spec's fields. */
  lemma DefaultFiltersKeySet(spec: ModelSpec, k: string)
    requires DistinctKeys(spec)
    ensures HasKey(DefaultFilters(spec), k) <==> k == "global" || HasKey(spec, k)
  {
    DefaultFiltersGet(spec, k);
  }

  /** A heap cell holding one filter entry (a PrimeReact filter metadata object). */
  class FilterEntry {
    var filter: FieldFilter

    constructor (f: FieldFilter)
      ensures filter == f
    {
      filter := f;
    }
  }

  /** A filter map whose entries are shared, mutable objects. */
  type EntryMap = Dict<string, FilterEntry>

  ghost function Objects(m: EntryMap): set<FilterEntry> {
    set i | 0 <= i < |m| :: m[i].1
  }

  /** No two keys share one entry object. */
  ghost predicate Injective(m: EntryMap) {
    forall i, j :: 0 <= i < j < |m| ==> m[i].1 != m[j].1
  }

  /** The filter map the objects currently denote. */
  function View(m: EntryMap): (v: FilterMeta)
    reads set i | 0 <= i < |m| :: m[i].1
    ensures |v| == |m|
    ensures forall i :: 0 <= i < |m| ==> v[i] == (m[i].0, m[i].1.filter)
  {
    if |m| == 0 then [] else [(m[0].0, m[0].1.filter)] + View(m[1..])
  }

  lemma ObjectsSnoc(m: EntryMap, k: string, e: FilterEntry)
    ensures Objects(m + [(k, e)]) == Objects(m) + {e}
  {
    var m' := m + [(k, e)];
    forall x | x in Objects(m') ensures x in Objects(m) + {e} {
      var i :| 0 <= i < |m'| && m'[i].1 == x;
      if i < |m| {
        assert m[i].1 == x;
      }
    }
    forall x | x in Objects(m) ensures x in Objects(m') {
      var i :| 0 <= i < |m| && m[i].1 == x;
      assert m'[i].1 == x;
    }
    assert m'[|m|].1 == e;
  }

  /** Fresh, distinct entry objects for a filter map. */
  method Allocate(meta: FilterMeta) returns (m: EntryMap)
    ensures View(m) == meta
    ensures Injective(m)
    ensures fresh(Objects(m))
  {
    m := [];
    var i := 0;
    while i < |meta|
      invariant 0 <= i <= |meta|
      invariant |m| == i
      invariant forall j :: 0 <= j < i ==> m[j].0 == meta[j].0 && m[j].1.filter == meta[j].1
      invariant Injective(m)
      invariant fresh(Objects(m))
    {
      var e := new FilterEntry(meta[i].1);
      ObjectsSnoc(m, meta[i].0, e);
      m := m + [(meta[i].0, e)];
      i := i + 1;
    }
  }

  /** `next['global'].value = value` on a filter map that has a `global` entry. */
  function SetGlobalValue(meta: FilterMeta, v: Value): (r: FilterMeta)
    requires HasKey(meta, "global")
    ensures Keys(r) == Keys(meta)
    ensures Get(r, "global") == Some(SetValue(Get(meta, "global").value, v))
    ensures forall k :: k != "global" ==> Get(r, k) == Get(meta, k)
  {
    Put(meta, "global", SetValue(Get(meta, "global").value, v))
  }

  /** `SetGlobalValue` overwrites the `global` entry where it stands. */
  lemma SetGlobalValueAt(meta: FilterMeta, v: Value)
    requires HasKey(meta, "global")
    ensures SetGlobalValue(meta, v) ==
      meta[IndexOf(meta, "global") := ("global", SetValue(meta[IndexOf(meta, "global")].1, v))]
  {
  }

  /** A map's view is the sequence of its keys paired with its entries' current values. */
  lemma ViewIs(m: EntryMap, v: FilterMeta)
    requires |v| == |m| && forall i :: 0 <= i < |m| ==> v[i] == (m[i].0, m[i].1.filter)
    ensures View(m) == v
  {
  }

  /**
   * The state of `useTableFilters`: the memoised default map, the current
   * filter map and the global search text.  Both maps are maps of entry
   * objects, so the `global` entry that `onGlobalFilterChange` mutates is the
   * one the memoised defaults hold until the table replaces its filters.
   */
  class TableFilters {
    const defaultFilters: EntryMap
    var filters: EntryMap
    var globalFilterValue: string

    ghost predicate Valid()
      reads this
    {
      Injective(defaultFilters) && Injective(filters)
      && HasKey(defaultFilters, "global") && HasKey(filters, "global")
    }

    /** The state of the first render: the defaults are `meta`, the filters are the defaults, no search text. */
    ghost predicate Pristine(meta: FilterMeta)
      reads this, set i | 0 <= i < |defaultFilters| :: defaultFilters[i].1
    {
      Valid() && View(defaultFilters) == meta && filters == defaultFilters && globalFilterValue == ""
    }

    /** `useState('')`, `useMemo(() => defaults)`, `useState(defaultFilters)`. */
    constructor (defaults: FilterMeta)
      requires HasKey(defaults, "global")
      ensures Valid()
      ensures |defaultFilters| == |defaults|
      ensures forall i :: 0 <= i < |defaults| ==>
        defaultFilters[i].0 == defaults[i].0 && defaultFilters[i].1.filter == defaults[i].1
      ensures filters == defaultFilters
      ensures globalFilterValue == ""
      ensures fresh(Objects(defaultFilters))
    {
      var m := Allocate(defaults);
      IndexOfSameKeys(m, defaults, "global");
      defaultFilters := m;
      filters := m;
      globalFilterValue := "";
    }

    /** `clearFilters`: `setFilters(defaultFilters)` and an empty search text. */
    method ClearFilters()
      requires Valid()
      modifies this
      ensures Valid()
      ensures filters == defaultFilters
      ensures View(filters) == old(View(defaultFilters))
      ensures globalFilterValue == ""
    {
      filters := defaultFilters;
      globalFilterValue := "";
    }

    /**
     * `onGlobalFilterChange`: the search text becomes `value`, and the shallow
     * copy of the map keeps every entry object while the `global` object's
     * value is overwritten in place.
     */
    method OnGlobalFilterChange(value: string)
      requires Valid()
      modifies this, filters[IndexOf(filters, "global")].1
      ensures Valid()
      ensures globalFilterValue == value
      ensures filters == old(filters)
      ensures View(filters) == SetGlobalValue(old(View(filters)), Str(value))
    {
      var g := IndexOf(filters, "global");
      var e := filters[g].1;
      ghost var before := View(filters);
      IndexOfSameKeys(before, filters, "global");
      ghost var after := before[g := ("global", SetValue(e.filter, Str(value)))];
      assert after == SetGlobalValue(before, Str(value)) by {
        SetGlobalValueAt(before, Str(value));
      }
      globalFilterValue := value;
      e.filter := SetValue(e.filter, Str(value));
      forall i | 0 <= i < |filters|
        ensures after[i] == (filters[i].0, filters[i].1.filter)
      {
        if i != g {
          assert filters[i].1 != e;
        }
      }
      ViewIs(filters, after);
    }

    /** `setFilters(e.filters)` from the table's filter event, whose map PrimeReact builds from fresh objects. */
    method SetFilters(next: FilterMeta)
      requires Valid() && HasKey(next, "global")
      modifies this
      ensures Valid()
      ensures View(filters) == next
      ensures fresh(Objects(filters))
      ensures globalFilterValue == old(globalFilterValue)
    {
      var m := Allocate(next);
      IndexOfSameKeys(m, next, "global");
      filters := m;
    }
  }

  /** `useTableFilters(spec)`: the hook's state right after mounting. */
  method UseTableFilters(spec: ModelSpec) returns (t: TableFilters)
    requires DistinctKeys(spec)
    ensures t.Valid()
    ensures View(t.defaultFilters) == DefaultFilters(spec)
    ensures t.filters == t.defaultFilters && t.globalFilterValue == ""
    ensures fresh(t) && fresh(Objects(t.defaultFilters))
  {
    var meta := BuildDefaultFilters(spec);
    DefaultFiltersKeySet(spec, "global");
    t := new TableFilters(meta);
    assert View(t.defaultFilters) == meta;
  }

  /**
   * Typing a search text and then clearing: the text is emptied, but the
   * restored default map still carries the typed value in its `global`
   * entry, because that entry object was mutated in place.
   */
  method ClearAfterGlobalEdit(spec: ModelSpec, text: string) returns (t: TableFilters)
    requires DistinctKeys(spec) && !HasKey(spec, "global")
    ensures t.globalFilterValue == ""
    ensures t.filters == t.defaultFilters
    ensures Get(View(t.filters), "global") == Some(Single(Constraint(Str(text), Contains)))
  {
    t := UseTableFilters(spec);
    DefaultFiltersGet(spec, "global");
    ghost var typed := SetGlobalValue(View(t.filters), Str(text));
    assert Get(typed, "global") == Some(Single(Constraint(Str(text), Contains)));
    assert t.filters[IndexOf(t.filters, "global")].1 in Objects(t.filters);
    t.OnGlobalFilterChange(text);
    ghost var m := t.filters;
    assert m == t.defaultFilters;
    assert View(m) == typed;
    t.ClearFilters();
  }
}
