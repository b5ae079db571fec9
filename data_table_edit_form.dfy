/**
 * `StarWarsClient/src/components/DataTableEditForm.tsx`: the create dialog.
 * The editor list is a filter/map/filter pipeline over the model spec; the
 * form data is a state cell replaced field by field and reset on save and
 * cancel.
 */
module DataTableEditForm {
  import opened Wrappers
  import opened Dicts
  import opened Js
  import opened FilterTypes
  import opened DataTableColumn
  import opened DataTableEditor

  /** `EditorComponent`: `element` is `undefined` when the editor factory returned null. */
  datatype EditorComponent = EditorComponent(field: string, element: Option<EditorElement>)

  /** The empty form the dialog starts from and resets to: `[]`. */
  const EmptyForm: Value := Arr([])

  /** `.filter(([, columnSpec]) => !columnSpec.isReadOnly)`. */
  function Editable(spec: ModelSpec): (r: ModelSpec)
    ensures |r| <= |spec|
    decreases |spec|
  {
    if |spec| == 0 then []
    else (if spec[0].1.isReadOnly then [] else [spec[0]]) + Editable(spec[1..])
  }

  /** The filter keeps exactly the entries that are not read-only. */
  lemma {:induction false} EditableMembers(spec: ModelSpec)
    ensures forall p :: p in Editable(spec) <==> p in spec && !p.1.isReadOnly
    decreases |spec|
  {
    if |spec| > 0 {
      EditableMembers(spec[1..]);
      assert spec == [spec[0]] + spec[1..];
    }
  }

  /** The filter keeps spec order: it distributes over concatenation. */
  lemma {:induction false} EditableAppend(a: ModelSpec, b: ModelSpec)
    ensures Editable(a + b) == Editable(a) + Editable(b)
    decreases |a|
  {
    if |a| > 0 {
      var head: ModelSpec := if a[0].1.isReadOnly then [] else [a[0]];
      assert (a + b)[0] == a[0];
      assert (a + b)[1..] == a[1..] + b;
      assert Editable(a + b) == head + Editable(a[1..] + b);
      EditableAppend(a[1..], b);
    } else {
      assert a + b == b;
    }
  }

  /** `formData[field] ?? ''`: the value each editor is bound to. */
  function EditorValue(formData: Value, field: string): (r: Value)
    requires !Nullish(formData)
    ensures !Nullish(Member(formData, field)) ==> r == Member(formData, field)
    ensures Nullish(Member(formData, field)) ==> r == Str("")
  {
    Coalesce(Member(formData, field), Str(""))
  }

  /** The `.map(...)` step for one field. */
  function Component(formData: Value, field: string, spec: ColumnSpec): EditorComponent
    requires !Nullish(formData)
  {
    var editor := Editor(field, spec);
    EditorComponent(field, if editor.Some? then Some(Render(editor.value, EditorValue(formData, field))) else None)
  }

  function Components(formData: Value, spec: ModelSpec): (r: seq<EditorComponent>)
    requires !Nullish(formData)
    ensures |r| == |spec|
    ensures forall i :: 0 <= i < |spec| ==> r[i] == Component(formData, spec[i].0, spec[i].1)
  {
    seq(|spec|, i requires 0 <= i < |spec| => Component(formData, spec[i].0, spec[i].1))
  }

  /** `.filter((e) => e.element !== undefined)`. */
  function WithElement(cs: seq<EditorComponent>): (r: seq<EditorComponent>)
    ensures forall c :: c in r <==> c in cs && c.element.Some?
    decreases |cs|
  {
    if |cs| == 0 then []
    else (if cs[0].element.Some? then [cs[0]] else []) + WithElement(cs[1..])
  }

  /** `editorComponents`. */
  function EditorComponents(spec: ModelSpec, formData: Value): seq<EditorComponent>
    requires !Nullish(formData)
  {
    WithElement(Components(formData, Editable(spec)))
  }

  lemma {:induction false} WithElementAllSome(cs: seq<EditorComponent>)
    requires forall i :: 0 <= i < |cs| ==> cs[i].element.Some?
    ensures WithElement(cs) == cs
    decreases |cs|
  {
    if |cs| > 0 {
      WithElementAllSome(cs[1..]);
    }
  }

  /**
   * One editor per editable field, in spec order: every editable field gets
   * an element (no kind yields null), bound to `formData[field] ?? ''`.
   */
  lemma EditorComponentsFields(spec: ModelSpec, formData: Value)
    requires !Nullish(formData)
    ensures |EditorComponents(spec, formData)| == |Editable(spec)|
    ensures forall i :: 0 <= i < |Editable(spec)| ==>
      var (field, c) := Editable(spec)[i];
      EditorComponents(spec, formData)[i] ==
        EditorComponent(field, Some(Render(Editor(field, c).value, EditorValue(formData, field))))
  {
    var cs := Components(formData, Editable(spec));
    forall i | 0 <= i < |cs| ensures cs[i].element.Some? {
      EditorForEveryKind(Editable(spec)[i].0, Editable(spec)[i].1);
    }
    WithElementAllSome(cs);
  }

  /** A field of the spec gets an editor exactly when it is not read-only. */
  lemma EditorForFieldIff(spec: ModelSpec, formData: Value, field: string)
    requires DistinctKeys(spec) && !Nullish(formData)
    ensures (exists i :: 0 <= i < |EditorComponents(spec, formData)| && EditorComponents(spec, formData)[i].field == field)
        <==> HasKey(spec, field) && !Get(spec, field).value.isReadOnly
  {
    var comps := EditorComponents(spec, formData);
    EditorComponentsFields(spec, formData);
    EditableMembers(spec);
    if i :| 0 <= i < |comps| && comps[i].field == field {
      var p := Editable(spec)[i];
      assert p in spec && !p.1.isReadOnly;
      var j :| 0 <= j < |spec| && spec[j] == p;
      GetAt(spec, j);
    }
    if HasKey(spec, field) && !Get(spec, field).value.isReadOnly {
      var j := IndexOf(spec, field);
      assert spec[j] in Editable(spec);
      var i :| 0 <= i < |Editable(spec)| && Editable(spec)[i] == spec[j];
      assert comps[i].field == field;
    }
  }

  /** `{...formData, [field]: value}`. */
  function WithField(formData: Value, field: string, value: Value): (r: Value)
    ensures r.Obj?
  {
    Obj(Put(Spread(formData), field, value))
  }

  /**
   * The update sets `field` and keeps every other property the spread
   * copies; on an object form every other field reads as before.
   */
  lemma WithFieldSets(formData: Value, field: string, value: Value, other: string)
    requires other != field
    ensures Member(WithField(formData, field, value), field) == value
    ensures Member(WithField(formData, field, value), other) == Prop(Spread(formData), other)
    ensures formData.Obj? ==> Member(WithField(formData, field, value), other) == Member(formData, other)
  {
  }

  /**
   * On the empty form `[]`, `formData['length']` is the array's length 0, so
   * the editor of a field named `length` (the starship and vehicle specs have
   * one) starts at 0 rather than `''`; after any edit the form is an object
   * and `length` reads `undefined`, shown as `''`, until it is set.
   */
  lemma LengthFieldOnEmptyForm(other: string, value: Value)
    requires other != "length"
    ensures EditorValue(EmptyForm, "length") == Zero
    ensures EditorValue(WithField(EmptyForm, other, value), "length") == Str("")
  {
    assert Spread(EmptyForm) == [];
  }

  /** The dialog's `formData` state cell and its `data` prop. */
  class EditForm {
    const data: Value
    var formData: Value

    /** `data = []` as the default parameter, then `useState(data ?? [])`. */
    constructor (data: Value)
      ensures this.data == data && formData == Coalesce(data, EmptyForm)
    {
      this.data := data;
      formData := Coalesce(data, EmptyForm);
    }

    /** The form of the current render: what the editor list is built from. */
    function Editors(spec: ModelSpec): seq<EditorComponent>
      reads this
      requires !Nullish(formData)
    {
      EditorComponents(spec, formData)
    }

    /** `editorCallback(value)` of the editor for `field`. */
    method EditorCallback(field: string, value: Value)
      modifies this
      ensures formData == WithField(old(formData), field, value)
    {
      formData := WithField(formData, field, value);
    }

    /** Save: `onSave(formData)` then `resetForm()`; the caller hides the dialog in `onHide`. */
    method Save() returns (saved: Value)
      modifies this
      ensures saved == old(formData) && formData == EmptyForm
    {
      saved := formData;
      formData := EmptyForm;
    }

    /** Cancel: `resetForm()` without `onSave`. */
    method Cancel()
      modifies this
      ensures formData == EmptyForm
    {
      formData := EmptyForm;
    }

    /** `onShow`: reload the form from the `data` prop. */
    method OnShow()
      modifies this
      ensures formData == Coalesce(data, EmptyForm)
    {
      formData := Coalesce(data, EmptyForm);
    }
  }

  /** Editing two fields and saving hands both values to `onSave` and leaves an empty form. */
  method EditThenSaveExample(a: string, b: string, va: Value, vb: Value) returns (saved: Value, f: EditForm)
    requires a != b
    ensures saved.Obj? && Member(saved, a) == va && Member(saved, b) == vb
    ensures f.formData == EmptyForm
  {
    f := new EditForm(Undefined);
    f.EditorCallback(a, va);
    f.EditorCallback(b, vb);
    WithFieldSets(WithField(EmptyForm, a, va), b, vb, a);
    WithFieldSets(EmptyForm, a, va, b);
    saved := f.Save();
  }
}
