/**
 * `StarWarsClient/src/components/SwapiDataTable.tsx`: the grid's state and
 * its handlers.  The row array is copied and changed by `findIndex`
 * followed by an index assignment, a `push` or a `splice`; the filter state
 * is the one of `DataTableColumn.TableFilters`.  Each request's response is
 * a parameter of the handler that sends it.
 */
module SwapiDataTable {
  import opened Wrappers
  import opened Dicts
  import opened Js
  import opened FilterTypes
  import opened DataTableColumn
  import opened DataTableFilters
  import opened SwapiColumn
  import opened DataTableEditForm
  import opened DateUtils
  import opened StarWarsInfoClient

  /** `rows.findIndex(item => item[key] === target)`. */
  function FindIndex(rows: seq<Record>, key: string, target: Value): (r: int)
    ensures -1 <= r < |rows|
    ensures r >= 0 ==> StrictEquals(Prop(rows[r], key), target)
    ensures r >= 0 ==> forall j :: 0 <= j < r ==> !StrictEquals(Prop(rows[j], key), target)
    ensures r == -1 <==> forall j :: 0 <= j < |rows| ==> !StrictEquals(Prop(rows[j], key), target)
  {
    if |rows| == 0 then -1
    else if StrictEquals(Prop(rows[0], key), target) then 0
    else
      var r := FindIndex(rows[1..], key, target);
      if r < 0 then -1 else r + 1
  }

  /** The position of the first match, however it is found. */
  lemma FindIndexIsFirstMatch(rows: seq<Record>, key: string, target: Value, i: nat)
    requires i < |rows| && StrictEquals(Prop(rows[i], key), target)
    requires forall j :: 0 <= j < i ==> !StrictEquals(Prop(rows[j], key), target)
    ensures FindIndex(rows, key, target) == i
  {
  }

  /** The table after an update response: the first row with the same key replaced, or the response appended. */
  function Upserted(rows: seq<Record>, key: string, response: Record): seq<Record> {
    var i := FindIndex(rows, key, Prop(response, key));
    if i == -1 then rows + [response] else rows[i := response]
  }

  /**
   * `Array.prototype.splice(start, 1)`: a negative start counts from the
   * end (clamped at 0), a start at or past the end removes nothing.
   */
  function Splice1<T>(s: seq<T>, start: int): seq<T> {
    var at := if start < 0 then (if |s| + start < 0 then 0 else |s| + start) else start;
    if at < |s| then s[..at] + s[at + 1..] else s
  }

  /** The table after a delete success for a row whose key value is `target`. */
  function AfterDelete(rows: seq<Record>, key: string, target: Value): (r: seq<Record>)
    ensures |rows| > 0 ==> |r| == |rows| - 1
    ensures |rows| == 0 ==> r == []
  {
    Splice1(rows, FindIndex(rows, key, target))
  }

  /** A primitive key value: one `===` can match. */
  predicate Primitive(v: Value) {
    !(v.Arr? || v.Obj? || v.DateV?)
  }

  /**
   * An upsert keeps every other row in place: the first matching row is
   * replaced and the length kept, or, with no match, the response is
   * appended and the length grows by one.
   */
  lemma UpsertShape(rows: seq<Record>, key: string, response: Record)
    ensures var i := FindIndex(rows, key, Prop(response, key));
      var u := Upserted(rows, key, response);
      |u| == (if i == -1 then |rows| + 1 else |rows|) &&
      u[if i == -1 then |rows| else i] == response &&
      forall j :: 0 <= j < |rows| && j != i ==> u[j] == rows[j]
  {
  }

  /**
   * With a primitive key value, the row the upsert wrote is the one a
   * lookup by that key finds: at the replaced position, or at the end.
   */
  lemma UpsertThenFind(rows: seq<Record>, key: string, response: Record)
    requires Primitive(Prop(response, key))
    ensures var i := FindIndex(rows, key, Prop(response, key));
      FindIndex(Upserted(rows, key, response), key, Prop(response, key)) == (if i == -1 then |rows| else i)
  {
    var t := Prop(response, key);
    var i := FindIndex(rows, key, t);
    var u := Upserted(rows, key, response);
    UpsertShape(rows, key, response);
    var at := if i == -1 then |rows| else i;
    assert StrictEquals(Prop(u[at], key), t);
    FindIndexIsFirstMatch(u, key, t, at);
  }

  /** With a primitive key value, saving the same response twice leaves the table as after the first save. */
  lemma UpsertIdempotent(rows: seq<Record>, key: string, response: Record)
    requires Primitive(Prop(response, key))
    ensures Upserted(Upserted(rows, key, response), key, response) == Upserted(rows, key, response)
  {
    UpsertThenFind(rows, key, response);
  }

  /**
   * With an object, array or date as key value, `===` never matches, so
   * every save appends another row.
   */
  lemma NonPrimitiveKeyAppends(rows: seq<Record>, key: string, response: Record)
    requires !Primitive(Prop(response, key))
    ensures Upserted(rows, key, response) == rows + [response]
  {
  }

  /** A delete of a key that is present removes exactly the first matching row; the others keep their order. */
  lemma DeletePresent(rows: seq<Record>, key: string, target: Value)
    requires FindIndex(rows, key, target) >= 0
    ensures var i := FindIndex(rows, key, target);
      AfterDelete(rows, key, target) == rows[..i] + rows[i + 1..] &&
      |AfterDelete(rows, key, target)| == |rows| - 1 &&
      multiset(AfterDelete(rows, key, target)) + multiset{rows[i]} == multiset(rows)
  {
    RemoveAt(rows, FindIndex(rows, key, target));
  }

  /** `splice(i, 1)` at a position inside the array removes that element and keeps the rest. */
  lemma RemoveAt<T>(s: seq<T>, i: int)
    requires 0 <= i < |s|
    ensures Splice1(s, i) == s[..i] + s[i + 1..]
    ensures |Splice1(s, i)| == |s| - 1
    ensures multiset(Splice1(s, i)) + multiset{s[i]} == multiset(s)
  {
    var left, right := s[..i], s[i + 1..];
    assert s == left + [s[i]] + right;
  }

  /**
   * A delete of a key that is absent: `findIndex` gives -1 and
   * `splice(-1, 1)` removes the last row (an empty table stays empty).
   */
  lemma DeleteAbsent(rows: seq<Record>, key: string, target: Value)
    requires forall j :: 0 <= j < |rows| ==> !StrictEquals(Prop(rows[j], key), target)
    ensures |rows| > 0 ==> AfterDelete(rows, key, target) == rows[..|rows| - 1]
    ensures |rows| == 0 ==> AfterDelete(rows, key, target) == []
  {
  }

  /** Saving a row with a new primitive key and then deleting that key gives back the table before the save. */
  lemma DeleteUndoesAppend(rows: seq<Record>, key: string, response: Record)
    requires Primitive(Prop(response, key))
    requires FindIndex(rows, key, Prop(response, key)) == -1
    ensures AfterDelete(Upserted(rows, key, response), key, Prop(response, key)) == rows
  {
    UpsertThenFind(rows, key, response);
    assert (rows + [response])[..|rows|] == rows;
  }

  /**
   * The columns between the Edit and Delete columns: one per spec entry,
   * in spec order, each built from the entry read as a filter field spec.
   */
  function Columns(spec: ModelSpec): (r: seq<ColumnProps>)
    ensures |r| == |spec|
    ensures forall i :: 0 <= i < |spec| ==> r[i].field == spec[i].0
  {
    seq(|spec|, i requires 0 <= i < |spec| => SwapiColumn.Column(spec[i].0, AsFilterField(spec[i].1)))
  }

  /** `isHidden`, `isReadOnly` and `isDataKey` are not consulted: a hidden field still gets its column, unchanged. */
  lemma ColumnsIgnoreFlags(spec: ModelSpec, i: nat, hidden: bool, readOnly: bool)
    requires i < |spec|
    ensures Columns(spec[i := (spec[i].0, spec[i].1.(isHidden := hidden, isReadOnly := readOnly))]) == Columns(spec)
  {
    var spec' := spec[i := (spec[i].0, spec[i].1.(isHidden := hidden, isReadOnly := readOnly))];
    assert forall j :: 0 <= j < |spec| ==> AsFilterField(spec'[j].1) == AsFilterField(spec[j].1);
  }

  /**
   * The component's state.  `initialized` is the Keycloak flag, constant
   * over the handlers modelled; `base` and `toDate` stand for the API URL
   * and `new Date(v)`.
   */
  class SwapiGrid {
    const spec: ModelSpec
    const modelDataKey: string
    const base: string
    const toDate: Value -> JsDate
    const initialized: bool
    const filterState: TableFilters
    const form: EditForm
    /** The filter map the first render builds from the columns. */
    ghost const defaults: FilterMeta
    var tableData: seq<Record>
    var editFormVisible: bool
    var loading: bool

    ghost predicate Valid()
      reads this, filterState, form
    {
      filterState.Valid() && !Nullish(form.formData)
    }

    /**
     * First render: the data key (the render throws without one), the
     * default filters, an empty table that is loading, a hidden form whose
     * `data` prop takes its default `[]`.
     */
    constructor (spec: ModelSpec, base: string, toDate: Value -> JsDate, initialized: bool)
      requires DistinctKeys(spec) && DataKeyOf(spec).Ok?
      ensures Valid()
      ensures this.spec == spec && this.base == base && this.initialized == initialized
      ensures modelDataKey == DataKeyOf(spec).value
      ensures defaults == DataTableColumn.DefaultFilters(spec) && filterState.Pristine(defaults)
      ensures tableData == [] && loading && !editFormVisible
      ensures form.formData == EmptyForm
    {
      var key, fs, f, meta := Mount(spec);
      this.spec := spec;
      defaults := meta;
      this.modelDataKey := key;
      this.base := base;
      this.toDate := toDate;
      this.initialized := initialized;
      tableData := [];
      editFormVisible := false;
      loading := true;
      form := f;
      filterState := fs;
    }

    /**
     * The fetch effect: without Keycloak it does nothing; otherwise it sends
     * the GET, stops loading, and on success replaces the whole table,
     * prompting for an import when the result is empty.
     */
    method OnFetch(response: Response) returns (request: Option<Request>, promptImport: bool)
      modifies this
      ensures !initialized ==>
        request == None && !promptImport && tableData == old(tableData) && loading == old(loading)
      ensures initialized ==> request == Some(FetchRequest(base, modelDataKey)) && !loading
      ensures var outcome := FetchOutcome(spec, modelDataKey, base, response, toDate);
        initialized && outcome.Delivered? ==> tableData == outcome.value && (promptImport <==> |outcome.value| == 0)
      ensures initialized && !FetchOutcome(spec, modelDataKey, base, response, toDate).Delivered? ==>
        tableData == old(tableData) && !promptImport
      ensures editFormVisible == old(editFormVisible)
    {
      if !initialized {
        return None, false;
      }
      request := Some(FetchRequest(base, modelDataKey));
      promptImport := false;
      var outcome := FetchOutcome(spec, modelDataKey, base, response, toDate);
      if outcome.Delivered? {
        tableData := outcome.value;
        promptImport := |outcome.value| == 0;
      }
      loading := false;
    }

    /**
     * `onRowEditComplete(newData)`: the PUT or POST, and on the success
     * callback the copy with the first row of equal key replaced, or with
     * the response pushed on the end.
     */
    method OnRowEditComplete(newData: Value, response: Response) returns (request: Option<Request>)
      requires !Nullish(newData)
      modifies this
      ensures request == if initialized then Some(UpdateRequest(base, modelDataKey, newData)) else None
      ensures var outcome := UpdateOutcome(spec, modelDataKey, base, response, toDate);
        tableData == if initialized && outcome.Delivered? then Upserted(old(tableData), modelDataKey, outcome.value)
                     else old(tableData)
      ensures editFormVisible == old(editFormVisible) && loading == old(loading)
    {
      if !initialized {
        return None;
      }
      request := Some(UpdateRequest(base, modelDataKey, newData));
      var outcome := UpdateOutcome(spec, modelDataKey, base, response, toDate);
      if outcome.Delivered? {
        var responseData := outcome.value;
        var newTableData := tableData;
        var updatedRowIndex := FindIndex(newTableData, modelDataKey, Prop(responseData, modelDataKey));
        if updatedRowIndex == -1 {
          newTableData := newTableData + [responseData];
        } else {
          newTableData := newTableData[updatedRowIndex := responseData];
        }
        tableData := newTableData;
      }
    }

    /**
     * `onClickRowDelete(rowData)`, after the dialog is accepted: the DELETE
     * of `rowData[modelDataKey]` in its string form (`toText`, JavaScript's
     * string coercion in `fullUrl + '/' + id`), and on success the copy
     * spliced at the first row of equal key.
     */
    method OnClickRowDelete(rowData: Record, toText: Value -> string, response: Response) returns (request: Option<Request>)
      modifies this
      ensures request == if initialized then Some(DeleteRequest(base, modelDataKey, toText(Prop(rowData, modelDataKey)))) else None
      ensures tableData ==
        if initialized && DeleteOutcome(modelDataKey, base, response).Delivered?
        then AfterDelete(old(tableData), modelDataKey, Prop(rowData, modelDataKey))
        else old(tableData)
      ensures editFormVisible == old(editFormVisible) && loading == old(loading)
    {
      if !initialized {
        return None;
      }
      request := Some(DeleteRequest(base, modelDataKey, toText(Prop(rowData, modelDataKey))));
      if DeleteOutcome(modelDataKey, base, response).Delivered? {
        var newTableData := tableData;
        var deletedRowIndex := FindIndex(newTableData, modelDataKey, Prop(rowData, modelDataKey));
        newTableData := Splice1(newTableData, deletedRowIndex);
        tableData := newTableData;
      }
    }

    /** `onClickRowAdd`: show the form. */
    method OnClickRowAdd()
      modifies this
      ensures editFormVisible
      ensures tableData == old(tableData) && loading == old(loading)
    {
      if !editFormVisible {
        editFormVisible := true;
      }
    }

    /** An editor of the form reports a value. */
    method OnFormEdit(field: string, value: Value)
      requires Valid()
      modifies form
      ensures Valid()
      ensures form.formData == WithField(old(form.formData), field, value)
    {
      form.EditorCallback(field, value);
    }

    /** The form's Save: `onSave(formData)` runs `onRowEditComplete`, then `resetForm` empties the form and `onHide` hides it. */
    method OnFormSave(response: Response) returns (request: Option<Request>)
      requires Valid()
      modifies this, form
      ensures Valid()
      ensures request == if initialized then Some(UpdateRequest(base, modelDataKey, old(form.formData))) else None
      ensures var outcome := UpdateOutcome(spec, modelDataKey, base, response, toDate);
        tableData == if initialized && outcome.Delivered? then Upserted(old(tableData), modelDataKey, outcome.value)
                     else old(tableData)
      ensures form.formData == EmptyForm && !editFormVisible
    {
      var saved := form.Save();
      request := OnRowEditComplete(saved, response);
      editFormVisible := false;
    }

    /** The form's Cancel: `resetForm` empties the form and `onHide` hides it; the table is untouched. */
    method OnFormCancel()
      requires Valid()
      modifies this, form
      ensures Valid()
      ensures form.formData == EmptyForm && !editFormVisible
      ensures tableData == old(tableData)
    {
      form.Cancel();
      editFormVisible := false;
    }

    /** `clearGlobalFilter`: the default filter map and an empty search text. */
    method ClearGlobalFilter()
      requires Valid()
      modifies filterState
      ensures Valid()
      ensures filterState.filters == filterState.defaultFilters && filterState.globalFilterValue == ""
    {
      filterState.ClearFilters();
    }

    /** `onGlobalFilterChange`: the search text and the `global` entry's value, nothing else. */
    method OnGlobalFilterChange(value: string)
      requires Valid()
      modifies filterState, filterState.filters[IndexOf(filterState.filters, "global")].1
      ensures Valid()
      ensures filterState.globalFilterValue == value
      ensures filterState.filters == old(filterState.filters)
      ensures View(filterState.filters) == SetGlobalValue(old(View(filterState.filters)), Str(value))
    {
      filterState.OnGlobalFilterChange(value);
    }

    /** The table's `onFilter`: `setFilters(e.filters)`. */
    method OnFilter(next: FilterMeta)
      requires Valid() && HasKey(next, "global")
      modifies filterState
      ensures Valid()
      ensures View(filterState.filters) == next
      ensures filterState.globalFilterValue == old(filterState.globalFilterValue)
    {
      filterState.SetFilters(next);
    }
  }

  /** The objects of the first render. */
  method Mount(spec: ModelSpec) returns (key: string, fs: TableFilters, f: EditForm, ghost meta: FilterMeta)
    requires DistinctKeys(spec) && DataKeyOf(spec).Ok?
    ensures key == DataKeyOf(spec).value
    ensures meta == DataTableColumn.DefaultFilters(spec) && fs.Pristine(meta)
    ensures !Nullish(f.formData) && f.formData == EmptyForm
    ensures fresh(fs) && fresh(f)
  {
    f := new EditForm(EmptyForm);
    var k := GetModelDataKey(spec);
    key := k.value;
    fs := DataTableColumn.UseTableFilters(spec);
    meta := DataTableColumn.DefaultFilters(spec);
  }

  /** A fetch of two object rows with no date fields delivers them as they are. */
  lemma FetchTwoRows(spec: ModelSpec, key: string, base: string, toDate: Value -> JsDate, a: Record, b: Record)
    requires |GetDateFields(spec)| == 0
    ensures FetchOutcome(spec, key, base, Received(true, Json(Arr([Obj(a), Obj(b)]))), toDate) == Delivered([a, b])
  {
    var rows := ConvertStringDates([Obj(a), Obj(b)], GetDateFields(spec), toDate);
    NoKeysCopies(a, toDate);
    NoKeysCopies(b, toDate);
    assert rows == [a, b];
  }

  /**
   * A delete whose key matches no row still removes the last row of the
   * table: two loaded rows, a delete success for a third key, one row left.
   */
  method DeleteMissingRowExample(g: SwapiGrid, a: Record, b: Record, missing: Record)
    requires g.initialized && g.tableData == [a, b]
    requires !StrictEquals(Prop(a, g.modelDataKey), Prop(missing, g.modelDataKey))
    requires !StrictEquals(Prop(b, g.modelDataKey), Prop(missing, g.modelDataKey))
    modifies g
    ensures g.tableData == [a]
  {
    DeleteAbsent([a, b], g.modelDataKey, Prop(missing, g.modelDataKey));
    var _ := g.OnClickRowDelete(missing, (v: Value) => "x", Received(true, Unparsable));
  }
}
