/**
 * `StarWarsClient/src/components/DataTableEditor.tsx`: the row editor a
 * column kind gets, as a descriptor of the PrimeReact input and its props,
 * and the value each input forwards to `options.editorCallback`.
 */
module DataTableEditor {
  import opened Wrappers
  import opened Js
  import opened FilterTypes
  import opened DataTableColumn

  /** The PrimeReact input of each branch with the props that depend on the spec or are fixed there. */
  datatype EditorWidget =
    | TextInput
    | NumberInput(minFractionDigits: int, maxFractionDigits: int, readOnly: bool)
    | CalendarInput(mask: string, dateFormat: string, showIcon: bool, showTime: bool, hourFormat: string, readOnlyInput: bool)
    | DropdownInput(options: Option<seq<SelectItem>>, readOnly: bool)
    | MultiSelectInput(options: Option<seq<SelectItem>>, readOnly: bool)
    | CheckboxInput(readOnly: bool)

  /** An editor closure applied to `options`: the widget, bound to `options.value` (`checked` for the checkbox). */
  datatype EditorElement = EditorElement(widget: EditorWidget, value: Value)

  /** A PrimeReact change event: `e.target.value` for `InputText`, `e.value` for the other inputs. */
  datatype ChangeEvent = ChangeEvent(targetValue: Value, value: Value)

  /** `DataTableEditor({field, columnSpec})`: `None` stands for `null`. */
  function Editor(field: string, spec: ColumnSpec): Option<EditorWidget> {
    match spec.kind
    case Text => Some(TextInput)
    case Id => Some(NumberInput(spec.decimalPlaces.GetOr(0), spec.decimalPlaces.GetOr(0), spec.isReadOnly))
    case Number => Some(NumberInput(spec.decimalPlaces.GetOr(0), spec.decimalPlaces.GetOr(0), spec.isReadOnly))
    case Date => Some(CalendarInput("9999-99-99 99:99", "yy-mm-dd", true, true, "24", spec.isReadOnly))
    case Dropdown => Some(DropdownInput(spec.selectItems, spec.isReadOnly))
    case Multiselect => Some(MultiSelectInput(spec.selectItems, spec.isReadOnly))
    case Boolean => Some(CheckboxInput(spec.isReadOnly))
  }

  /** The element the closure renders for `options.value`. */
  function Render(widget: EditorWidget, value: Value): (r: EditorElement)
    ensures r.widget == widget && r.value == value
  {
    EditorElement(widget, value)
  }

  /** The value an input's `onChange` passes to `options.editorCallback`. */
  function Forwarded(widget: EditorWidget, e: ChangeEvent): (r: Value)
    ensures widget.TextInput? ==> r == e.targetValue
    ensures !widget.TextInput? ==> r == e.value
  {
    if widget.TextInput? then e.targetValue else e.value
  }

  /**
   * Whether the widget is set read-only: its `readOnly` prop, or for the
   * calendar its `readOnlyInput` prop, which blocks keyboard entry only (the
   * date picker can still change the value).
   */
  predicate ReadOnlyProp(widget: EditorWidget) {
    match widget
    case TextInput => false
    case NumberInput(_, _, readOnly) => readOnly
    case CalendarInput(_, _, _, _, _, readOnlyInput) => readOnlyInput
    case DropdownInput(_, readOnly) => readOnly
    case MultiSelectInput(_, readOnly) => readOnly
    case CheckboxInput(readOnly) => readOnly
  }

  /** Every one of the seven kinds gets an editor. */
  lemma EditorForEveryKind(field: string, spec: ColumnSpec)
    ensures Editor(field, spec).Some?
  {
  }

  /**
   * `isReadOnly` reaches every editor except the text input, which stays
   * editable for a read-only text column; the date editor carries it as
   * `readOnlyInput`.
   */
  lemma ReadOnlyRule(field: string, spec: ColumnSpec)
    ensures spec.kind == Text ==> Editor(field, spec) == Some(TextInput) && !ReadOnlyProp(Editor(field, spec).value)
    ensures spec.kind != Text ==> (ReadOnlyProp(Editor(field, spec).value) <==> spec.isReadOnly)
    ensures spec.kind == Date ==> Editor(field, spec).value.readOnlyInput == spec.isReadOnly
  {
  }

  /** `id` and `number` share the numeric editor, with both fraction-digit bounds at `decimalPlaces ?? 0`. */
  lemma NumericEditor(field: string, spec: ColumnSpec)
    requires spec.kind == Id || spec.kind == Number
    ensures Editor(field, spec) == Editor(field, spec.(kind := Id))
    ensures Editor(field, spec) == Editor(field, spec.(kind := Number))
    ensures Editor(field, spec).value.NumberInput?
    ensures Editor(field, spec).value.minFractionDigits == Editor(field, spec).value.maxFractionDigits == spec.decimalPlaces.GetOr(0)
  {
  }

  /** Dropdown and multiselect editors list `selectItems`; the calendar's mask and formats are fixed. */
  lemma OptionEditors(field: string, spec: ColumnSpec)
    ensures spec.kind == Dropdown ==> Editor(field, spec) == Some(DropdownInput(spec.selectItems, spec.isReadOnly))
    ensures spec.kind == Multiselect ==> Editor(field, spec) == Some(MultiSelectInput(spec.selectItems, spec.isReadOnly))
    ensures spec.kind == Boolean ==> Editor(field, spec) == Some(CheckboxInput(spec.isReadOnly))
    ensures spec.kind == Date ==>
      Editor(field, spec) == Some(CalendarInput("9999-99-99 99:99", "yy-mm-dd", true, true, "24", spec.isReadOnly))
  {
  }
}
