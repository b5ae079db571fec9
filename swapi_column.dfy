/**
 * `StarWarsClient/src/components/SwapiColumn.tsx`: how one field spec becomes
 * a PrimeReact `Column`: its header, style, filter element, cell body and
 * the Apply/Clear handlers wired to the deferred filter buffer.
 */
module SwapiColumn {
  import opened Wrappers
  import opened Dicts
  import opened Js
  import opened FilterTypes
  import opened DataTableFilters
  import opened DataTableCellFormat
  import opened DataTableFilterCache

  const DefaultWidth: string := "14rem"
  const FrozenBackgroundColor: string := "#363749ff"

  /** The inline style: `minWidth`, and `background` only for frozen columns. */
  datatype Style = Style(minWidth: string, background: Option<string>)

  /** The filter element the column is given, one per branch of `getFilterElement`. */
  datatype FilterElement =
    | IdTemplate
    | NumberBetweenTemplate
    | DateBetweenTemplate
    | BooleanTemplate
    | DropdownTemplate(items: seq<SelectItem>)
    | MultiselectTemplate(items: seq<SelectItem>)
    | TextFilterElement(field: string)

  /** The props of the `Column` other than the body and the two handlers. */
  datatype ColumnProps = ColumnProps(
    field: string,
    header: string,
    style: Style,
    frozen: bool,
    sortable: bool,
    filter: bool,
    showFilterMatchModes: bool,
    filterElement: FilterElement)

  function ColumnStyle(spec: FilterFieldSpec): (r: Style)
    ensures r.minWidth == spec.width.GetOr(DefaultWidth)
    ensures r.background.Some? <==> spec.frozen
    ensures spec.frozen ==> r.background == Some(FrozenBackgroundColor)
  {
    Style(spec.width.GetOr(DefaultWidth), if spec.frozen then Some(FrozenBackgroundColor) else None)
  }

  /** `getFilterElement()`: the text filter is the fallback for `text`. */
  function GetFilterElement(field: string, spec: FilterFieldSpec): FilterElement {
    match spec.kind
    case Id => IdTemplate
    case Number => NumberBetweenTemplate
    case Date => DateBetweenTemplate
    case Boolean => BooleanTemplate
    case Dropdown => DropdownTemplate(spec.selectItems.GetOr([]))
    case Multiselect => MultiselectTemplate(spec.selectItems.GetOr([]))
    case Text => TextFilterElement(field)
  }

  /** The element each kind gets; the option lists default to empty. */
  lemma FilterElementByKind(field: string, spec: FilterFieldSpec)
    ensures spec.kind == Text <==> GetFilterElement(field, spec) == TextFilterElement(field)
    ensures spec.kind == Dropdown ==> GetFilterElement(field, spec).items == spec.selectItems.GetOr([])
    ensures spec.kind == Multiselect && spec.selectItems.None? ==> GetFilterElement(field, spec) == MultiselectTemplate([])
    ensures GetFilterElement(field, spec).TextFilterElement? ==> GetFilterElement(field, spec).field == field
  {
  }

  /** `items.find(i => i?.value === v)`: the first item whose value is strictly equal to `v`. */
  function FindItem(items: seq<SelectItem>, v: Value): (r: Option<nat>)
    ensures r.Some? ==> r.value < |items| && StrictEquals(items[r.value].value, v)
    ensures r.Some? ==> forall j :: 0 <= j < r.value ==> !StrictEquals(items[j].value, v)
    ensures r.None? ==> forall j :: 0 <= j < |items| ==> !StrictEquals(items[j].value, v)
    decreases |items|
  {
    if |items| == 0 then None
    else if StrictEquals(items[0].value, v) then Some(0)
    else match FindItem(items[1..], v)
      case None => None
      case Some(j) => Some(j + 1)
  }

  /** `spec.selectItems?.find(...)?.label ?? rowData[field]`. */
  function ItemLabel(items: Option<seq<SelectItem>>, v: Value): (r: Value)
    ensures items.None? ==> r == v
  {
    if items.None? then v
    else match FindItem(items.value, v)
      case None => v
      case Some(j) => Coalesce(items.value[j].itemLabel, v)
  }

  /** `getBody()` applied to one row; `toLocale` is `Number.prototype.toLocaleString('en-US', …)`. */
  function CellBody(field: string, spec: FilterFieldSpec, row: RowData, toLocale: (Number, int) -> string): Value {
    var v := Prop(row, field);
    match spec.kind
    case Number => Str(FormatNumber(row, field, spec.decimalPlaces, None, toLocale))
    case Date => Str(FormatDateCustom(row, field, DefaultPattern))
    case Boolean => Str(if Truthy(v) then "Y" else "N")
    case Dropdown => ItemLabel(spec.selectItems, v)
    case Multiselect => ItemLabel(spec.selectItems, v)
    case _ => Coalesce(v, Str(""))
  }

  /**
   * What each kind's cells show: numbers without a suffix and with at most
   * `decimalPlaces` (default 0) fraction digits, dates in the default
   * pattern, booleans as Y/N by truthiness, id and text as the raw value with
   * `''` for null or undefined; a non-number in a number column and a
   * non-Date in a date column show as `''`.
   */
  lemma CellBodyByKind(field: string, spec: FilterFieldSpec, row: RowData, toLocale: (Number, int) -> string)
    ensures spec.kind == Number && !IsNumber(Prop(row, field)) ==> CellBody(field, spec, row, toLocale) == Str("")
    ensures spec.kind == Number && IsNumber(Prop(row, field)) ==>
      CellBody(field, spec, row, toLocale) == Str(toLocale(Prop(row, field).n, spec.decimalPlaces.GetOr(0)))
    ensures spec.kind == Date && Prop(row, field).DateV? ==>
      CellBody(field, spec, row, toLocale) == Str(ApplyPattern(Prop(row, field).d, DefaultPattern))
    ensures spec.kind == Date && !Prop(row, field).DateV? ==> CellBody(field, spec, row, toLocale) == Str("")
    ensures spec.kind == Boolean ==> (CellBody(field, spec, row, toLocale) == Str("Y") <==> Truthy(Prop(row, field)))
    ensures spec.kind == Boolean ==> (CellBody(field, spec, row, toLocale) == Str("N") <==> !Truthy(Prop(row, field)))
    ensures (spec.kind == Id || spec.kind == Text) && !Nullish(Prop(row, field)) ==>
      CellBody(field, spec, row, toLocale) == Prop(row, field)
    ensures (spec.kind == Id || spec.kind == Text) && Nullish(Prop(row, field)) ==>
      CellBody(field, spec, row, toLocale) == Str("")
  {
  }

  /**
   * A dropdown or multiselect cell shows the label of the first option whose
   * value is `===` the cell value, falling back to the raw value when there
   * is none or its label is null or undefined.
   */
  lemma {:induction false} OptionLabel(field: string, spec: FilterFieldSpec, row: RowData, toLocale: (Number, int) -> string, j: nat)
    requires spec.kind == Dropdown || spec.kind == Multiselect
    requires spec.selectItems.Some? && j < |spec.selectItems.value|
    requires StrictEquals(spec.selectItems.value[j].value, Prop(row, field))
    requires forall i :: 0 <= i < j ==> !StrictEquals(spec.selectItems.value[i].value, Prop(row, field))
    ensures CellBody(field, spec, row, toLocale) == Coalesce(spec.selectItems.value[j].itemLabel, Prop(row, field))
  {
    var f := FindItem(spec.selectItems.value, Prop(row, field));
    assert f == Some(j);
  }

  /** Objects are never `===` a primitive option value, so a Date cell in a dropdown column shows itself. */
  lemma DateCellInDropdown(field: string, spec: FilterFieldSpec, row: RowData, toLocale: (Number, int) -> string)
    requires spec.kind == Dropdown || spec.kind == Multiselect
    requires Prop(row, field).DateV?
    ensures CellBody(field, spec, row, toLocale) == Prop(row, field)
  {
    if spec.selectItems.Some? {
      assert FindItem(spec.selectItems.value, Prop(row, field)).None?;
    }
  }

  /** The `Column` element `SwapiColumn` renders for `field`. */
  function Column(field: string, spec: FilterFieldSpec): (r: ColumnProps)
    ensures r.field == field && r.header == FormatHeaderText(field)
    ensures r.style == ColumnStyle(spec) && r.frozen == spec.frozen
    ensures r.sortable && r.filter
    ensures r.showFilterMatchModes <==> spec.kind != Number
    ensures r.filterElement == GetFilterElement(field, spec)
  {
    ColumnProps(field, FormatHeaderText(field), ColumnStyle(spec), spec.frozen, true, true,
                spec.kind != Number, GetFilterElement(field, spec))
  }

  /** `onFilterApplyClick`: replays the buffered values of this column. */
  method OnFilterApplyClick(cache: FilterCallbackCache, field: string) returns (calls: seq<ApplyCall>)
    ensures calls == PendingCalls(cache.callbacks, field)
  {
    calls := cache.ApplyCallbacks(field);
  }

  /** `onFilterClear`: drops the buffered values of this column only. */
  method OnFilterClear(cache: FilterCallbackCache, field: string)
    modifies cache
    ensures PendingCalls(cache.callbacks, field) == []
    ensures forall other :: other != field ==> Get(cache.callbacks, other) == Get(old(cache.callbacks), other)
  {
    cache.ClearCallbacks(field);
    ClearDropsField(old(cache.callbacks), field);
  }
}
