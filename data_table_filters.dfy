/**
 * `StarWarsClient/src/utils/DataTableFilters.tsx`: the older filter-only
 * field spec with its own copy of `buildDefaultFilters` and
 * `useTableFilters`.  The `defaultConstraint` and `defaultOperator` switches
 * there are the same switches over the same seven kinds as in
 * `DataTableColumn.tsx`, so `DataTableColumn.DefaultConstraint` and
 * `DataTableColumn.DefaultOperator` stand for both.
 */
module DataTableFilters {
  import opened Wrappers
  import opened Dicts
  import opened Js
  import opened FilterTypes
  import DataTableColumn

  /** `FilterFieldSpec`. */
  datatype FilterFieldSpec = FilterFieldSpec(
    kind: Kind,
    width: Option<string>,
    frozen: bool,
    decimalPlaces: Option<int>,
    operator: Option<Operator>,
    matchMode: Option<MatchMode>,
    selectItems: Option<seq<SelectItem>>)

  /** `FilterSpec`. */
  type FilterSpec = Dict<string, FilterFieldSpec>

  /** The loop body of this file's `buildDefaultFilters` for one field. */
  function EntryFor(def: FilterFieldSpec): FieldFilter {
    var operator := def.operator.GetOr(DataTableColumn.DefaultOperator(def.kind));
    var base := DataTableColumn.DefaultConstraint(def.kind);
    var constraint :=
      if base.ListBase? then base.cs
      else [Constraint(base.c.value, def.matchMode.GetOr(base.c.matchMode))];
    if def.kind == Id || def.kind == Text || def.kind == Date then
      Operated(operator, constraint)
    else if def.kind == Number then
      Single(Constraint(Null, Between))
    else
      Single(constraint[0])
  }

  /** The map this file's `buildDefaultFilters` has built after the given fields. */
  function DefaultFilters(spec: FilterSpec): FilterMeta
    decreases |spec|
  {
    if |spec| == 0 then [("global", DataTableColumn.GlobalDefault)]
    else Put(DefaultFilters(spec[..|spec| - 1]), spec[|spec| - 1].0, EntryFor(spec[|spec| - 1].1))
  }

  /** `buildDefaultFilters` over a `FilterSpec`. */
  method BuildDefaultFilters(spec: FilterSpec) returns (meta: FilterMeta)
    ensures meta == DefaultFilters(spec)
  {
    meta := [("global", DataTableColumn.GlobalDefault)];
    var i := 0;
    while i < |spec|
      invariant 0 <= i <= |spec|
      invariant meta == DefaultFilters(spec[..i])
    {
      var (field, def) := spec[i];
      assert spec[..i + 1][..i] == spec[..i];
      meta := Put(meta, field, EntryFor(def));
      i := i + 1;
    }
    assert spec[..|spec|] == spec;
  }

  /** A filter field spec read as a column spec with no data-key, read-only or hidden flag. */
  function AsColumn(def: FilterFieldSpec): DataTableColumn.ColumnSpec {
    DataTableColumn.ColumnSpec(def.kind, None, def.width, def.frozen, def.decimalPlaces,
                               def.operator, def.matchMode, def.selectItems, false, false, false)
  }

  /**
   * A column spec passed where a `FilterFieldSpec` is expected: structural
   * typing keeps the filter fields and the component ignores the rest.
   */
  function AsFilterField(c: DataTableColumn.ColumnSpec): FilterFieldSpec {
    FilterFieldSpec(c.kind, c.width, c.frozen, c.decimalPlaces, c.operator, c.matchMode, c.selectItems)
  }

  /** Reading a filter field spec as a column spec and back loses nothing. */
  lemma FilterFieldRoundTrip(def: FilterFieldSpec)
    ensures AsFilterField(AsColumn(def)) == def
  {
  }

  /** A column spec read as a filter field spec keeps every field except the data type and the three flags. */
  lemma ColumnRoundTrip(c: DataTableColumn.ColumnSpec)
    ensures AsColumn(AsFilterField(c)) == c.(dataType := None, isDataKey := false, isReadOnly := false, isHidden := false)
  {
  }

  function AsModelSpec(spec: FilterSpec): (r: DataTableColumn.ModelSpec)
    ensures |r| == |spec|
    ensures forall i :: 0 <= i < |spec| ==> r[i] == (spec[i].0, AsColumn(spec[i].1))
  {
    seq(|spec|, i requires 0 <= i < |spec| => (spec[i].0, AsColumn(spec[i].1)))
  }

  /** The two copies of `buildDefaultFilters` build the same map. */
  lemma {:induction false} SameAsColumnDefaults(spec: FilterSpec)
    ensures DefaultFilters(spec) == DataTableColumn.DefaultFilters(AsModelSpec(spec))
    decreases |spec|
  {
    if |spec| > 0 {
      var n := |spec| - 1;
      SameAsColumnDefaults(spec[..n]);
      AsModelSpecPrefix(spec, n);
      SameEntry(spec[n].1);
    }
  }

  lemma AsModelSpecPrefix(spec: FilterSpec, n: nat)
    requires n <= |spec|
    ensures AsModelSpec(spec)[..n] == AsModelSpec(spec[..n])
  {
  }

  /** Both copies of the loop body store the same entry for a field. */
  lemma SameEntry(def: FilterFieldSpec)
    ensures EntryFor(def) == DataTableColumn.EntryFor(AsColumn(def))
  {
  }

  /**
   * A `global` CONTAINS entry unless a field is named `global`, and exactly one
   * entry per field, as `EntryFor` gives it.
   */
  lemma DefaultFiltersGet(spec: FilterSpec, k: string)
    requires DistinctKeys(spec)
    ensures Get(DefaultFilters(spec), k) ==
      if HasKey(spec, k) then Some(EntryFor(Get(spec, k).value))
      else if k == "global" then Some(DataTableColumn.GlobalDefault)
      else None
  {
    var ms := AsModelSpec(spec);
    SameAsColumnDefaults(spec);
    IndexOfSameKeys(spec, ms, k);
    DataTableColumn.DefaultFiltersGet(ms, k);
    if HasKey(spec, k) {
      assert EntryFor(Get(spec, k).value) == DataTableColumn.EntryFor(Get(ms, k).value);
    }
  }

  /** The per-kind entries of this copy: id/text with one constraint, date with two, number a single BETWEEN, the rest the first constraint with the override honoured. */
  lemma EntryForKinds(def: FilterFieldSpec)
    ensures (def.kind == Id || def.kind == Text) ==>
      EntryFor(def) == Operated(def.operator.GetOr(And),
                                [Constraint(Null, def.matchMode.GetOr(if def.kind == Id then Equals else Contains))])
    ensures def.kind == Date ==>
      EntryFor(def) == Operated(def.operator.GetOr(And), [Constraint(Null, DateAfter), Constraint(Null, DateBefore)])
    ensures def.kind == Number ==> EntryFor(def) == Single(Constraint(Null, Between))
    ensures (def.kind == Dropdown || def.kind == Multiselect || def.kind == Boolean) ==>
      EntryFor(def) == Single(Constraint(Null, def.matchMode.GetOr(DataTableColumn.SingleDefaultMode(def.kind))))
  {
    SameEntry(def);
  }

  /** This file's `useTableFilters(spec)` right after mounting. */
  method UseTableFilters(spec: FilterSpec) returns (t: DataTableColumn.TableFilters)
    requires DistinctKeys(spec)
    ensures t.Valid()
    ensures DataTableColumn.View(t.defaultFilters) == DefaultFilters(spec)
    ensures t.filters == t.defaultFilters && t.globalFilterValue == ""
    ensures fresh(t)
  {
    var meta := BuildDefaultFilters(spec);
    DefaultFiltersGet(spec, "global");
    t := new DataTableColumn.TableFilters(meta);
    assert DataTableColumn.View(t.defaultFilters) == meta;
  }
}
