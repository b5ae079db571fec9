/**
 * The PrimeReact filter metadata the grid engine builds and edits, and the
 * seven column kinds (declared identically in `DataTableColumn.tsx` and
 * `DataTableFilters.tsx`).
 */
module FilterTypes {
  import opened Dicts
  import opened Js

  /** `ColumnFilterKind`. */
  datatype Kind = Id | Text | Number | Date | Dropdown | Multiselect | Boolean

  /** PrimeReact's `FilterMatchMode`. */
  datatype MatchMode =
    | StartsWith | Contains | NotContains | EndsWith | Equals | NotEquals | In
    | LessThan | LessThanOrEqual | GreaterThan | GreaterThanOrEqual | Between
    | DateIs | DateIsNot | DateBefore | DateAfter | Custom

  /** PrimeReact's `FilterOperator`. */
  datatype Operator = And | Or

  /** `{ value, matchMode }`. */
  datatype Constraint = Constraint(value: Value, matchMode: MatchMode)

  /** One entry of `DataTableFilterMeta`: a single value, or `{ operator, constraints }`. */
  datatype FieldFilter =
    | Single(c: Constraint)
    | Operated(operator: Operator, constraints: seq<Constraint>)

  /** `DataTableFilterMeta`: field name to filter, in insertion order. */
  type FilterMeta = Dict<string, FieldFilter>

  /** PrimeReact's `SelectItem` (`label` is a Dafny keyword, hence `itemLabel`). */
  datatype SelectItem = SelectItem(itemLabel: Value, value: Value)

  /**
   * `entry.value = v`.  On the constraint-list form the assignment only adds a
   * `value` property that the list form does not read, so the filter it
   * denotes is unchanged.
   */
  function SetValue(f: FieldFilter, v: Value): (r: FieldFilter)
    ensures f.Single? ==> r == Single(Constraint(v, f.c.matchMode))
    ensures f.Operated? ==> r == f
  {
    match f
    case Single(c) => Single(c.(value := v))
    case Operated(_, _) => f
  }
}
