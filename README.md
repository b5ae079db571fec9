# StarWarsInfo grid engine and SWAPI parsers in Dafny

This project models two parts of the StarWarsInfo application.

The first is the client's grid engine, from the StarWarsClient front end:
- the cell formatters and the header text of a field;
- the conversion of date strings in fetched rows;
- the per-column filter callback cache;
- the default filter map of a model spec, and the filter state hook (both copies of it);
- the number range filter's draft bounds;
- the editors and the add/edit form;
- the column builder;
- the HTTP calls of the API client;
- the table component's handlers: fetch, row edit, add, delete, form save and cancel, global search and filter.

The second is the server's SWAPI import layer:
- `SwapiFieldParser`, which turns SWAPI text fields into nullable integers, decimals and ids;
- the six mappers (film, person, planet, species, starship, vehicle), which turn a SWAPI record into an entity.

Pure code is modelled as functions with lemmas about them. Code that updates state is modelled as classes with `modifies` clauses:
- the filter callback cache;
- the filter state hook, whose filter entries are heap objects so that mutation in place is visible;
- the edit form;
- the number filter widget;
- the table component.

JavaScript values are a `Value` datatype with the language's truthiness, nullishness and strict equality (`js.dfy`). Plain objects and `Map`s are insertion-ordered association lists (`dicts.dfy`); JavaScript's listing of integer-like object keys first is not modelled (see "## Left out"). A C# call that throws is a `Parsed<T>` result whose error is the exception type. A C# object initialiser is evaluated field by field, and the first exception escapes (`swapi_mapping.dfy`).

Integer parsing follows .NET `int.Parse` and `ulong.Parse` under the invariant culture:
- surrounding white space is allowed;
- a leading sign is allowed;
- there are no separators;
- `FormatException` is raised for an empty or malformed text;
- `OverflowException` is raised past the type's range.

`decimal.Parse` is modelled as a digit string with at most one point. The value is an unscaled integer with a scale.

## Behaviours of the code kept as written

- When several fields are marked as data key, the first marked field is the key (`DataTableColumn.DataKeyIsFirstMarked`).
- The default filter of a number column is a single `between` constraint whose value is null (`DataTableColumn.EntryFor`).
- Cached filter callbacks are applied in the order their indices were first set; setting an index again keeps its place (`DataTableFilterCache.SetApplyOrder`).
- The table's columns read neither `isHidden` nor `isReadOnly`, and the text editor does not read `isReadOnly` (`SwapiDataTable.ColumnsIgnoreFlags`, `DataTableEditor.ReadOnlyRule`).
- Deleting a row whose key is not in the table removes the last row: `findIndex` returns -1 and `splice(-1, 1)` removes the last element (`SwapiDataTable.DeleteAbsent`).
- An update reads the response body whatever `response.ok` says, so an error body is upserted as a row (`StarWarsInfoClient.UpdateIgnoresStatus`).
- Typing a global search overwrites the default filter object in place, so clearing the filters afterwards keeps the typed text in the `global` entry (`DataTableColumn.ClearAfterGlobalEdit`).
- The number filter uses `min || -Infinity` and `max || Infinity`, so a bound of 0 behaves like an empty bound (`FilterNumber.ZeroBoundBecomesInfinite`).
- `RawUrlToId` trims only trailing `/`, so a URL ending in `/` followed by spaces has a blank last segment and throws a format error (`SwapiFieldParser.TrailingBlankUrl`). A URL ending in a number followed by spaces still parses, because `int.Parse` accepts trailing white space. The test case at StarWarsInfoTest/Integrations/Swapi/SwapiFieldParserTests.cs:128 expects 7 for `…/7/   `, which throws.
- `convertStringDates` reads `item[k]` before its null check, so a null or undefined item throws a `TypeError` when there are date fields. `DateUtils.Converted` and its callers in this module require a non-nullish item in that case; `StarWarsInfoClient.FetchOutcome` and `StarWarsInfoClient.UpdateOutcome` model the throw as the logged error of the surrounding `catch`.

## Modelling choices

- `SwapiColumn.tsx` has its own copy of `formatHeaderText`, identical to the one in `DataTableCellFormat.ts`, which is the one modelled. It imports its number and date formatters from `DataTableColumnBody.ts`, which is not part of this model; the model uses the formatters of `DataTableCellFormat.ts` in its place.
- `SwapiDataTable.tsx` keeps its own filter state (lines 32-61), with code identical to the hook in `DataTableColumn.tsx`. The model gives the table an instance of `DataTableColumn.TableFilters`.
- A JavaScript default parameter is an `Option` argument: `None` stands for the argument left out (`decimals = 1` of `formatPercentage`, `currency = 'USD'` of `formatCurrency`, `decimals = 0` and `suffix = ''` of `formatNumber`). `formatDateCustom`'s `format = 'yyyy-MM-dd HH:mm:ss'` (StarWarsClient/src/utils/DataTableCellFormat.ts:42) is the exception: `DataTableCellFormat.FormatDateCustom` takes a required `format`, and a call that leaves it out is a call with the constant `DataTableCellFormat.DefaultPattern`, which is what `SwapiColumn.CellBody` passes.
- The entity datatypes (`Film`, `Person`, `Planet`, `Species`, `Starship`, `Vehicle`) give each field the type its mapper assigns to it. The classes under StarWarsInfo/Models declare some fields differently (Film.cs:7 declares `EpisodeId` a `string` and Film.cs:11 `ReleaseDate` a `DateTime`, where FilmMapper.cs assigns an `int` and a `DateOnly`; likewise Starship.cs:9 declares `CostInCredits` a `decimal` and Starship.cs:14 `CargoCapacity` a `string?`, where StarshipMapper.cs:44 and :49 assign a `decimal?` and a `ulong?`), so the mapper's types are the ones modelled.

## Model

| member | source | states |
|---|---|---|
| DataTableCellFormat.FormatNumber | StarWarsClient/src/utils/DataTableCellFormat.ts:16-22 | a value that is not a number renders as `''`; a number renders as its en-US locale text with at most `decimals` fraction digits (0 when not given) followed by the suffix (`''` when not given) |
| DataTableCellFormat.FormatDateAsLocal | StarWarsClient/src/utils/DataTableCellFormat.ts:30-33 | a value that is not a `Date` renders as `''`; a `Date` renders as its `toLocaleDateString` text |
| DataTableCellFormat.FormatPercentage | StarWarsClient/src/utils/DataTableCellFormat.ts:62-65 | a value that is not a number renders as `''`; a number renders as its `toFixed` text with `decimals` fraction digits (1 when not given) followed by `%`, so it always ends in `%` |
| DataTableCellFormat.FormatCurrency | StarWarsClient/src/utils/DataTableCellFormat.ts:74-79 | a value that is not a number renders as `''`; a number renders through the en-US currency formatter in the given currency (`USD` when not given) |
| DataTableCellFormat.FormatDateCustom | StarWarsClient/src/utils/DataTableCellFormat.ts:42-53 | a value that is not a `Date` renders as `''`; a `Date` renders as the pattern after the token replacements |
| DataTableCellFormat.ApplyPattern | StarWarsClient/src/utils/DataTableCellFormat.ts:45-51 | the replacement chain of `formatDateCustom`; what it yields is stated by `ApplyPatternTexts`, `DefaultPatternLayout`, `TokenFreePattern` and `OnlyFirstOccurrence` |
| DataTableCellFormat.ApplyPatternTexts | StarWarsClient/src/utils/DataTableCellFormat.ts:45-51 | the six replacements are applied in the order `yyyy`, `MM`, `dd`, `HH`, `mm`, `ss`, each replacing only the first occurrence |
| DataTableCellFormat.DefaultTextsLayout | StarWarsClient/src/utils/DataTableCellFormat.ts:42-51 | when no component text contains a token letter, the default pattern yields `year-month-day hour:minute:second` exactly |
| DataTableCellFormat.DefaultPatternLayout | StarWarsClient/src/utils/DataTableCellFormat.ts:42-51 | for every date, valid or not, the default pattern yields the year unpadded and month to seconds padded to two characters, with the separators of the pattern |
| DataTableCellFormat.NumberTextPlain | StarWarsClient/src/utils/DataTableCellFormat.ts:46-51 | the text of any component number, padded or not, contains none of the token letters, so later replacements cannot rewrite it |
| DataTableCellFormat.DefaultPatternExample | StarWarsClient/src/utils/DataTableCellFormat.ts:42-51 | 1 March 2024 10:15:00 renders as `2024-03-01 10:15:00` |
| DataTableCellFormat.InvalidDateExample | StarWarsClient/src/utils/DataTableCellFormat.ts:42-51 | an invalid date renders as `NaN-NaN-NaN NaN:NaN:NaN` |
| DataTableCellFormat.TokenFreePattern | StarWarsClient/src/utils/DataTableCellFormat.ts:45-51 | a pattern containing no token is returned unchanged |
| DataTableCellFormat.OnlyFirstOccurrence | StarWarsClient/src/utils/DataTableCellFormat.ts:48 | in the pattern `dd/dd` only the first `dd` is replaced; the second is kept literally |
| DataTableCellFormat.FormatHeaderText | StarWarsClient/src/utils/DataTableCellFormat.ts:87-95 | `formatHeaderText`; its meaning is stated by `FormatHeaderTextChars`, `HeaderTextPointwise` and `HeaderTextIdempotent` |
| DataTableCellFormat.CapitalizeAll | StarWarsClient/src/utils/DataTableCellFormat.ts:90-93 | every piece is capitalised (first character upper-cased, rest kept) and the number of pieces is kept |
| DataTableCellFormat.HeaderOfPieces | StarWarsClient/src/utils/DataTableCellFormat.ts:87-95 | splitting on `_`, capitalising each piece and joining with spaces equals a character-by-character rule |
| DataTableCellFormat.FormatHeaderTextChars | StarWarsClient/src/utils/DataTableCellFormat.ts:87-95 | the header text of a field equals that character-by-character rule applied to the field name |
| DataTableCellFormat.HeaderCharsAt | StarWarsClient/src/utils/DataTableCellFormat.ts:87-95 | the character at every position is a space for `_`, the upper case of a word-initial character, and the field's own character otherwise |
| DataTableCellFormat.HeaderTextPointwise | StarWarsClient/src/utils/DataTableCellFormat.ts:87-95 | the header has the field's length; `_` becomes a space; the first character and every character after `_` are upper-cased; every other character is kept |
| DataTableCellFormat.HeaderTextIdempotent | StarWarsClient/src/utils/DataTableCellFormat.ts:87-95 | formatting a header twice gives the same text as formatting it once |
| DataTableCellFormat.HeaderTextExample | StarWarsClient/src/utils/DataTableCellFormat.ts:87-95 | `cost_in_credits` becomes `Cost In Credits` |
| DataTableCellFormat.HeaderOfThreeWords | StarWarsClient/src/utils/DataTableCellFormat.ts:87-95 | three `_`-free words joined by `_` become their capitalised forms joined by spaces |
| DateUtils.Converted | StarWarsClient/src/utils/DateUtils.ts:37-45 | the converted copy of one item; stated by `ConvertedObject`, `UntouchedKeys` and `ConvertedDistinct`; a nullish item with date fields is left to the callers, which log it |
| DateUtils.ConvertItem | StarWarsClient/src/utils/DateUtils.ts:37-46 | the copying loop produces exactly the converted object of the item |
| DateUtils.ConvertStringDates | StarWarsClient/src/utils/DateUtils.ts:28-48 | the result holds one converted copy per input item, in the same order |
| DateUtils.ConvertedObject | StarWarsClient/src/utils/DateUtils.ts:37-45 | the copy has the item's keys in the item's order; a listed key whose value is not nullish holds `new Date(v)`; every other key holds its original value |
| DateUtils.NoKeysCopies | StarWarsClient/src/utils/DateUtils.ts:37 | with no date keys the copy equals the item |
| DateUtils.UntouchedKeys | StarWarsClient/src/utils/DateUtils.ts:40-44 | a key that is not listed, or whose value is nullish, keeps its value |
| DateUtils.ConvertedDistinct | StarWarsClient/src/utils/DateUtils.ts:37-45 | the copy never holds a key twice |
| DataTableFilterCache.CallsOfEntries | StarWarsClient/src/utils/DataTableFilterCache.ts:31-33 | applying a field calls one callback per stored entry, in entry order, each with its stored value and its own index |
| DataTableFilterCache.SetStoresLatest | StarWarsClient/src/utils/DataTableFilterCache.ts:18-26 | after a set, the field's entry at that index is the new value and callback; entries at other indices are kept |
| DataTableFilterCache.SetKeepsOtherFields | StarWarsClient/src/utils/DataTableFilterCache.ts:18-26 | a set leaves every other field's entries unchanged |
| DataTableFilterCache.SetApplyOrder | StarWarsClient/src/utils/DataTableFilterCache.ts:21-25 | entries are applied in the order their indices were first set, and re-setting an index keeps its place |
| DataTableFilterCache.FirstSetOrderExample | StarWarsClient/src/utils/DataTableFilterCache.ts:25-31 | setting index 1 and then index 0 applies index 1 first |
| DataTableFilterCache.ApplyWithoutEntries | StarWarsClient/src/utils/DataTableFilterCache.ts:29-30 | applying a field with nothing stored makes no call |
| DataTableFilterCache.ClearDropsField | StarWarsClient/src/utils/DataTableFilterCache.ts:36-38 | clearing removes that field's entries only |
| DataTableFilterCache.FilterCallbackCache.constructor | StarWarsClient/src/utils/DataTableFilterCache.ts:16 | a new cache stores nothing |
| DataTableFilterCache.FilterCallbackCache.SetCallback | StarWarsClient/src/utils/DataTableFilterCache.ts:18-26 | the stored entries become those after the set, and nothing else changes |
| DataTableFilterCache.FilterCallbackCache.ApplyCallbacks | StarWarsClient/src/utils/DataTableFilterCache.ts:28-34 | returns the calls the stored entries produce and leaves the cache unchanged |
| DataTableFilterCache.FilterCallbackCache.ClearCallbacks | StarWarsClient/src/utils/DataTableFilterCache.ts:36-38 | the stored entries become those without the field |
| DataTableColumn.DataKeyOf | StarWarsClient/src/utils/DataTableColumn.tsx:42-49 | the data key of a spec or the error; stated by `DataKeyIndex`, `DataKeyIsFirstMarked` and `GetModelDataKey` |
| DataTableColumn.DataKeyIndex | StarWarsClient/src/utils/DataTableColumn.tsx:42-49 | the position of the first field marked as data key, or -1 exactly when no field is marked |
| DataTableColumn.DataKeyIsFirstMarked | StarWarsClient/src/utils/DataTableColumn.tsx:42-49 | the first marked field is the data key even when later fields are marked too |
| DataTableColumn.GetModelDataKey | StarWarsClient/src/utils/DataTableColumn.tsx:42-49 | the loop returns the first marked field's name, and fails with `No data key found in model spec` exactly when no field is marked |
| DataTableColumn.DefaultConstraint | StarWarsClient/src/utils/DataTableColumn.tsx:72-93 | date fields get a two-constraint list (after, before), every other kind a single constraint; every default value is null |
| DataTableColumn.DefaultOperator | StarWarsClient/src/utils/DataTableColumn.tsx:104-113 | the default operator is `or` exactly for dropdown and boolean fields |
| DataTableColumn.EntryFor | StarWarsClient/src/utils/DataTableColumn.tsx:129-151 | each kind's default entry, with the field's own match mode and operator overriding the defaults; a number field always gets a single `between` constraint with a null value |
| DataTableColumn.DefaultFilters | StarWarsClient/src/utils/DataTableColumn.tsx:124-154 | the default filter map; stated by `DefaultFiltersGet`, `DefaultFiltersKeys`, `DefaultFiltersDistinct`, `DefaultFiltersKeySet` and `BuildDefaultFilters` |
| DataTableColumn.BuildDefaultFilters | StarWarsClient/src/utils/DataTableColumn.tsx:124-154 | the loop builds exactly the default filter map of the spec |
| DataTableColumn.DefaultFiltersGet | StarWarsClient/src/utils/DataTableColumn.tsx:124-154 | each spec field maps to its default entry; `global` maps to a `contains` constraint unless a field is named `global`; no other key is present |
| DataTableColumn.DefaultFiltersKeys | StarWarsClient/src/utils/DataTableColumn.tsx:125-151 | the keys are `global` first, then the spec's fields in spec order |
| DataTableColumn.DefaultFiltersDistinct | StarWarsClient/src/utils/DataTableColumn.tsx:124-154 | no key occurs twice |
| DataTableColumn.DefaultFiltersKeySet | StarWarsClient/src/utils/DataTableColumn.tsx:124-154 | the key set is exactly `global` plus the spec's fields |
| DataTableColumn.SetGlobalValue | StarWarsClient/src/utils/DataTableColumn.tsx:188-191 | the keys are kept, the `global` entry's value becomes the typed text, every other entry is unchanged |
| DataTableColumn.TableFilters.constructor | StarWarsClient/src/utils/DataTableColumn.tsx:175-177 | the hook starts with the default filters as both current and default state and an empty search text |
| DataTableColumn.TableFilters.ClearFilters | StarWarsClient/src/utils/DataTableColumn.tsx:179-182 | the current filters become the default objects (as they now read) and the search text becomes empty |
| DataTableColumn.TableFilters.OnGlobalFilterChange | StarWarsClient/src/utils/DataTableColumn.tsx:184-193 | the search text becomes the value; the same entry objects are kept, and the `global` object's value is overwritten in place |
| DataTableColumn.TableFilters.SetFilters | StarWarsClient/src/utils/DataTableColumn.tsx:177 | the current filters become fresh objects holding the given map; the search text is kept |
| DataTableColumn.UseTableFilters | StarWarsClient/src/utils/DataTableColumn.tsx:164-224 | a mounted hook holds the default filters of the spec and an empty search text |
| DataTableColumn.ClearAfterGlobalEdit | StarWarsClient/src/utils/DataTableColumn.tsx:179-193 | typing a global search and then clearing empties the search text, but the default `global` entry still holds the typed text because it was mutated in place |
| DataTableFilters.DefaultFilters | StarWarsClient/src/utils/DataTableFilters.tsx:134-164 | this copy's default filter map; stated by `DataTableFilters.DefaultFiltersGet` and `SameAsColumnDefaults` |
| DataTableFilters.BuildDefaultFilters | StarWarsClient/src/utils/DataTableFilters.tsx:134-164 | the loop builds exactly the default filter map of this copy |
| DataTableFilters.FilterFieldRoundTrip | StarWarsClient/src/utils/DataTableFilters.tsx:23-34 | a filter field spec survives conversion to a column spec and back |
| DataTableFilters.ColumnRoundTrip | StarWarsClient/src/utils/DataTableFilters.tsx:23-34 | a column spec survives conversion to a filter field spec and back, apart from the column-only flags, which are reset |
| DataTableFilters.SameAsColumnDefaults | StarWarsClient/src/utils/DataTableFilters.tsx:134-164 | this copy builds the same default map as the one in DataTableColumn for the same fields |
| DataTableFilters.SameEntry | StarWarsClient/src/utils/DataTableFilters.tsx:139-161 | each field gets the same default entry from both copies |
| DataTableFilters.DefaultFiltersGet | StarWarsClient/src/utils/DataTableFilters.tsx:134-164 | each spec field maps to its default entry; `global` maps to the `contains` default unless a field is named `global`; no other key is present |
| DataTableFilters.EntryForKinds | StarWarsClient/src/utils/DataTableFilters.tsx:139-161 | the default entry of each kind: id and text one overridable constraint, date an after/before pair, number a single `between`, dropdown, multiselect and boolean one constraint with the kind's default mode |
| DataTableFilters.UseTableFilters | StarWarsClient/src/utils/DataTableFilters.tsx:174-229 | a mounted hook holds this copy's default filters and an empty search text |
| SwapiDataTable.FindIndex | StarWarsClient/src/components/SwapiDataTable.tsx:157-160 | the index of the first row whose key strictly equals the target, or -1 exactly when no row matches |
| SwapiDataTable.FindIndexIsFirstMatch | StarWarsClient/src/components/SwapiDataTable.tsx:157-160 | a matching row with no match before it is the one found |
| SwapiDataTable.Upserted | StarWarsClient/src/components/SwapiDataTable.tsx:156-167 | the rows after a save; stated by `UpsertShape`, `UpsertThenFind`, `UpsertIdempotent` and `NonPrimitiveKeyAppends` |
| SwapiDataTable.UpsertShape | StarWarsClient/src/components/SwapiDataTable.tsx:156-167 | a saved row replaces the first row with its key, or is appended when none has it; every other row is kept at its place |
| SwapiDataTable.UpsertThenFind | StarWarsClient/src/components/SwapiDataTable.tsx:156-167 | after saving, a key lookup finds the saved row, at the old place or at the end |
| SwapiDataTable.UpsertIdempotent | StarWarsClient/src/components/SwapiDataTable.tsx:156-167 | saving the same row twice gives the same table as saving it once |
| SwapiDataTable.NonPrimitiveKeyAppends | StarWarsClient/src/components/SwapiDataTable.tsx:157-164 | a row whose key is an object or array never strictly equals another, so it is always appended |
| SwapiDataTable.AfterDelete | StarWarsClient/src/components/SwapiDataTable.tsx:200-204 | the rows after a delete: `findIndex` then `splice(idx, 1)`, so a non-empty table loses exactly one row; stated by `DeletePresent`, `DeleteAbsent`, `DeleteUndoesAppend` and `SwapiGrid.OnClickRowDelete` |
| SwapiDataTable.DeletePresent | StarWarsClient/src/components/SwapiDataTable.tsx:200-204 | deleting a present key removes exactly the first row with it; the other rows keep their order and the row multiset loses that one row |
| SwapiDataTable.DeleteAbsent | StarWarsClient/src/components/SwapiDataTable.tsx:200-204 | deleting a key that no row has removes the last row (`splice(-1, 1)`), and leaves an empty table empty |
| SwapiDataTable.DeleteUndoesAppend | StarWarsClient/src/components/SwapiDataTable.tsx:163-204 | deleting the key of a row that saving appended gives back the table before the save |
| SwapiDataTable.Columns | StarWarsClient/src/components/SwapiDataTable.tsx:245-253 | one column per spec field, in spec order, each for its own field |
| SwapiDataTable.ColumnsIgnoreFlags | StarWarsClient/src/components/SwapiDataTable.tsx:245-253 | the columns do not depend on a field's hidden or read-only flags |
| SwapiDataTable.SwapiGrid.constructor | StarWarsClient/src/components/SwapiDataTable.tsx:27-38 | a new grid has the spec's data key, the default filters, no rows, is loading and shows no form |
| SwapiDataTable.SwapiGrid.OnFetch | StarWarsClient/src/components/SwapiDataTable.tsx:85-107 | while Keycloak is not initialized nothing happens; otherwise the rows become the converted response, the import prompt shows exactly when that list is empty, a failed fetch keeps the rows, and loading ends |
| SwapiDataTable.SwapiGrid.OnRowEditComplete | StarWarsClient/src/components/SwapiDataTable.tsx:150-179 | the update request is sent; a delivered response is upserted into the rows; otherwise the rows are kept |
| SwapiDataTable.SwapiGrid.OnClickRowAdd | StarWarsClient/src/components/SwapiDataTable.tsx:184-188 | the edit form becomes visible; the rows are kept |
| SwapiDataTable.SwapiGrid.OnClickRowDelete | StarWarsClient/src/components/SwapiDataTable.tsx:194-215 | the DELETE request carries the string form of the row's key; a successful response removes the first row with that key (the last row when none has it); otherwise the rows are kept |
| SwapiDataTable.SwapiGrid.OnFormEdit | StarWarsClient/src/components/DataTableEditForm.tsx:57-59 | the form data gains the edited field |
| SwapiDataTable.SwapiGrid.OnFormSave | StarWarsClient/src/components/SwapiDataTable.tsx:275-277 | the form data is sent as an update, a delivered response is upserted, and the form is emptied and hidden |
| SwapiDataTable.SwapiGrid.OnFormCancel | StarWarsClient/src/components/SwapiDataTable.tsx:275 | the form is emptied and hidden; the rows are kept |
| SwapiDataTable.SwapiGrid.ClearGlobalFilter | StarWarsClient/src/components/SwapiDataTable.tsx:43-46 | the filters become the default objects and the search text empty |
| SwapiDataTable.SwapiGrid.OnGlobalFilterChange | StarWarsClient/src/components/SwapiDataTable.tsx:52-61 | the search text becomes the value and the `global` entry's value is set in place |
| SwapiDataTable.SwapiGrid.OnFilter | StarWarsClient/src/components/SwapiDataTable.tsx:235 | the filters become the table's new filter map; the search text is kept |
| SwapiDataTable.FetchTwoRows | StarWarsClient/src/components/SwapiDataTable.tsx:85-107 | a two-row response with no date fields delivers those two rows |
| SwapiDataTable.DeleteMissingRowExample | StarWarsClient/src/components/SwapiDataTable.tsx:200-204 | deleting a row whose key is not in the table `[a, b]` leaves `[a]` |
| SwapiColumn.ColumnStyle | StarWarsClient/src/components/SwapiColumn.tsx:43-49 | the minimum width is the field's width or the default; a background is set exactly for frozen columns, and it is the frozen colour |
| SwapiColumn.GetFilterElement | StarWarsClient/src/components/SwapiColumn.tsx:51-71 | the filter element of a kind; stated by `FilterElementByKind` |
| SwapiColumn.FilterElementByKind | StarWarsClient/src/components/SwapiColumn.tsx:51-71 | text fields get the text filter element for their field; dropdowns get the field's items or none; a multiselect without items gets an empty template |
| SwapiColumn.FindItem | StarWarsClient/src/components/SwapiColumn.tsx:83 | the first item whose value strictly equals the cell value, or none when no item matches |
| SwapiColumn.ItemLabel | StarWarsClient/src/components/SwapiColumn.tsx:83 | without an item list the cell value is shown as is |
| SwapiColumn.CellBody | StarWarsClient/src/components/SwapiColumn.tsx:73-87 | the cell body of a kind; stated by `CellBodyByKind`, `OptionLabel` and `DateCellInDropdown` |
| SwapiColumn.CellBodyByKind | StarWarsClient/src/components/SwapiColumn.tsx:73-87 | number cells render through the number format or `''`; date cells through the custom date format or `''`; boolean cells `Y` exactly when truthy and `N` otherwise; id and text cells their value or `''` when nullish |
| SwapiColumn.OptionLabel | StarWarsClient/src/components/SwapiColumn.tsx:83 | a dropdown or multiselect cell shows the first matching item's label, or the value itself when that label is nullish |
| SwapiColumn.DateCellInDropdown | StarWarsClient/src/components/SwapiColumn.tsx:83 | a date value in an option column is shown as the value itself |
| SwapiColumn.Column | StarWarsClient/src/components/SwapiColumn.tsx:89-98 | a column for its field, with the formatted header, the column style, frozen as specified, sortable and filterable, match modes shown for every kind but number, and the kind's filter element |
| SwapiColumn.OnFilterApplyClick | StarWarsClient/src/components/SwapiColumn.tsx:99-101 | applying runs the calls the cache stores for the field |
| SwapiColumn.OnFilterClear | StarWarsClient/src/components/SwapiColumn.tsx:102-104 | clearing leaves no stored call for the field and keeps other fields' |
| DataTableEditor.Editor | StarWarsClient/src/components/DataTableEditor.tsx:20-89 | the editor of a field kind; stated by `EditorForEveryKind`, `ReadOnlyRule`, `NumericEditor` and `OptionEditors` |
| DataTableEditor.Render | StarWarsClient/src/components/DataTableEditor.tsx:22-85 | the element shows the chosen widget with the given value |
| DataTableEditor.Forwarded | StarWarsClient/src/components/DataTableEditor.tsx:31-82 | the text input forwards `e.target.value`; every other widget forwards `e.value` |
| DataTableEditor.EditorForEveryKind | StarWarsClient/src/components/DataTableEditor.tsx:20-89 | every field kind has an editor |
| DataTableEditor.ReadOnlyRule | StarWarsClient/src/components/DataTableEditor.tsx:44-83 | the text input ignores the read-only flag; every other editor is read-only exactly when the field is: the `readOnly` prop, and for the calendar the `readOnlyInput` prop, which blocks keyboard entry only |
| DataTableEditor.NumericEditor | StarWarsClient/src/components/DataTableEditor.tsx:35-46 | id and number fields get the same number input, with minimum and maximum fraction digits both `decimalPlaces ?? 0` |
| DataTableEditor.OptionEditors | StarWarsClient/src/components/DataTableEditor.tsx:47-85 | dropdown, multiselect, checkbox and calendar editors with the field's items and read-only flag, and the calendar's fixed mask, format, icon, time and hour format |
| DataTableEditForm.Editable | StarWarsClient/src/components/DataTableEditForm.tsx:49 | the editable fields never outnumber the spec fields |
| DataTableEditForm.EditableMembers | StarWarsClient/src/components/DataTableEditForm.tsx:49 | a field is editable exactly when it is in the spec and not read-only |
| DataTableEditForm.EditableAppend | StarWarsClient/src/components/DataTableEditForm.tsx:47-49 | filtering a concatenated spec filters each part |
| DataTableEditForm.EditorValue | StarWarsClient/src/components/DataTableEditForm.tsx:54 | an editor shows the form's value for its field, or `''` when that value is nullish |
| DataTableEditForm.Components | StarWarsClient/src/components/DataTableEditForm.tsx:50-62 | one component per spec field, built from that field's form value and spec |
| DataTableEditForm.WithElement | StarWarsClient/src/components/DataTableEditForm.tsx:63 | exactly the components that render an element are kept |
| DataTableEditForm.EditorComponents | StarWarsClient/src/components/DataTableEditForm.tsx:47-64 | the editors the form shows; stated by `EditorComponentsFields` and `EditorForFieldIff` |
| DataTableEditForm.EditorComponentsFields | StarWarsClient/src/components/DataTableEditForm.tsx:47-64 | the form shows one editor per editable field, in spec order, rendering that field's editor with its form value |
| DataTableEditForm.EditorForFieldIff | StarWarsClient/src/components/DataTableEditForm.tsx:47-64 | a field has an editor exactly when it is in the spec and is not read-only |
| DataTableEditForm.WithField | StarWarsClient/src/components/DataTableEditForm.tsx:58 | editing always gives an object |
| DataTableEditForm.WithFieldSets | StarWarsClient/src/components/DataTableEditForm.tsx:58 | after an edit the field holds the new value and every other field holds what the spread copy holds, its old value when the form was an object |
| DataTableEditForm.LengthFieldOnEmptyForm | StarWarsClient/src/components/DataTableEditForm.tsx:26-54 | the `length` field of the empty form shows 0, but after any other edit it shows `''`, since the edit replaces the array form by an object |
| DataTableEditForm.EditForm.constructor | StarWarsClient/src/components/DataTableEditForm.tsx:26-29 | the form data starts as the given data, or the empty form when it is nullish |
| DataTableEditForm.EditForm.EditorCallback | StarWarsClient/src/components/DataTableEditForm.tsx:57-59 | the form data becomes a copy with the field set |
| DataTableEditForm.EditForm.Save | StarWarsClient/src/components/DataTableEditForm.tsx:39-42 | the form data is handed to the caller and then reset to the empty form |
| DataTableEditForm.EditForm.Cancel | StarWarsClient/src/components/DataTableEditForm.tsx:31-38 | the form data is reset to the empty form |
| DataTableEditForm.EditForm.OnShow | StarWarsClient/src/components/DataTableEditForm.tsx:70 | the form data is reloaded from the given data, or the empty form when it is nullish |
| DataTableEditForm.EditThenSaveExample | StarWarsClient/src/components/DataTableEditForm.tsx:39-59 | editing two different fields and saving hands over an object holding both values and leaves the form empty |
| FilterNumber.InitialDraft | StarWarsClient/src/components/FilterElement/FilterNumber.tsx:18-19 | a draft bound starts as the committed pair's element when present and not nullish, and null when the committed value is not a list or is too short |
| FilterNumber.MinEditPair | StarWarsClient/src/components/FilterElement/FilterNumber.tsx:31 | editing the minimum commits `[min, max]`, with a falsy maximum replaced by +Infinity |
| FilterNumber.MaxEditPair | StarWarsClient/src/components/FilterElement/FilterNumber.tsx:39 | editing the maximum commits `[min, max]`, with a falsy minimum replaced by -Infinity |
| FilterNumber.ZeroBoundBecomesInfinite | StarWarsClient/src/components/FilterElement/FilterNumber.tsx:31-39 | a bound of 0 is treated like an empty bound and replaced by the matching infinity |
| FilterNumber.NumberFilterWidget.constructor | StarWarsClient/src/components/FilterElement/FilterNumber.tsx:18-19 | the draft bounds start from the committed value |
| FilterNumber.NumberFilterWidget.OnMinChange | StarWarsClient/src/components/FilterElement/FilterNumber.tsx:29-32 | the draft minimum becomes the value and the min-edit pair is stored in the callback cache |
| FilterNumber.NumberFilterWidget.OnMaxChange | StarWarsClient/src/components/FilterElement/FilterNumber.tsx:37-40 | the draft maximum becomes the value and the max-edit pair is stored in the callback cache |
| FilterNumber.NumberFilterWidget.Rerender | StarWarsClient/src/components/FilterElement/FilterNumber.tsx:22-23 | a draft bound is reloaded only when the committed element under it changed |
| FilterNumber.MinOnlyExample | StarWarsClient/src/components/FilterElement/FilterNumber.tsx:29-32 | entering only a minimum of 10 stores `[10, +Infinity]` |
| FilterTypes.SetValue | StarWarsClient/src/utils/DataTableColumn.tsx:190 | setting a value rewrites a single constraint's value and keeps its match mode; an operator entry is left as is |
| StarWarsInfoClient.GetApiUrl | StarWarsClient/src/utils/StarWarsInfoClient.ts:112-121 | the full URL is the base, `/` and the path, and the path is no longer than the key; the path is stated by `ApiPathDropsFirstId`, `FirstIdOnly` and `KeyWithoutId` |
| StarWarsInfoClient.ApiPathDropsFirstId | StarWarsClient/src/utils/StarWarsInfoClient.ts:114-121 | the path is the key with its first `_id` removed, and the URL is the base, `/` and that path |
| StarWarsInfoClient.StarshipApiUrl | StarWarsClient/src/utils/StarWarsInfoClient.ts:112-121 | the key `starship_id` gives the path `starship` |
| StarWarsInfoClient.FirstIdOnly | StarWarsClient/src/utils/StarWarsInfoClient.ts:116 | only the first `_id` is removed: `film_identity_id` gives `filmentity_id` |
| StarWarsInfoClient.KeyWithoutId | StarWarsClient/src/utils/StarWarsInfoClient.ts:116 | a key without `_id` is its own path |
| StarWarsInfoClient.GetDateFields | StarWarsClient/src/utils/StarWarsInfoClient.ts:133-138 | a field is listed exactly when it is in the spec and is a date field |
| StarWarsInfoClient.DateFieldsAppend | StarWarsClient/src/utils/StarWarsInfoClient.ts:134 | listing the date fields of a concatenated spec lists each part's |
| StarWarsInfoClient.DateFieldIff | StarWarsClient/src/utils/StarWarsInfoClient.ts:133-138 | with distinct fields, a field is listed exactly when the spec has it and it is a date field |
| StarWarsInfoClient.UpdateMethod | StarWarsClient/src/utils/StarWarsInfoClient.ts:59 | PUT exactly when the row's key is truthy, POST exactly when it is falsy |
| StarWarsInfoClient.PostForFalsyKey | StarWarsClient/src/utils/StarWarsInfoClient.ts:59 | a missing or falsy key (0, `''`, null, undefined) gives POST; a non-zero number gives PUT |
| StarWarsInfoClient.FetchRequest | StarWarsClient/src/utils/StarWarsInfoClient.ts:23-25 | the GET of the table URL, sent by `SwapiDataTable.SwapiGrid.OnFetch` |
| StarWarsInfoClient.FetchOutcome | StarWarsClient/src/utils/StarWarsInfoClient.ts:18-33 | what a fetch delivers or logs; stated by `FetchDelivery` |
| StarWarsInfoClient.FetchDelivery | StarWarsClient/src/utils/StarWarsInfoClient.ts:18-33 | rows are delivered exactly for a received JSON array (whose items are all non-nullish when dates are converted), converted item by item; otherwise the error is logged; the HTTP status is not consulted |
| StarWarsInfoClient.UpdateRequest | StarWarsClient/src/utils/StarWarsInfoClient.ts:56-62 | the request goes to the table URL with the row as body and the verb chosen by the row's key |
| StarWarsInfoClient.UpdateOutcome | StarWarsClient/src/utils/StarWarsInfoClient.ts:63-69 | what an update delivers or logs; stated by `UpdateIgnoresStatus` and `UpdateFailureLogged` |
| StarWarsInfoClient.UpdateIgnoresStatus | StarWarsClient/src/utils/StarWarsInfoClient.ts:63-68 | a failing status gives the same outcome as a success, so an error object comes back as a converted row |
| StarWarsInfoClient.UpdateFailureLogged | StarWarsClient/src/utils/StarWarsInfoClient.ts:69 | a network failure or an unparsable body is logged as an update error |
| StarWarsInfoClient.DeleteRequest | StarWarsClient/src/utils/StarWarsInfoClient.ts:90-94 | a DELETE without body to the table URL followed by `/` and the id |
| StarWarsInfoClient.DeleteOutcome | StarWarsClient/src/utils/StarWarsInfoClient.ts:95-101 | the delete succeeds exactly for a received OK response; a failing status throws `Failed to delete …`; a network failure is not handled |
| SwapiFieldParser.TextIsNull | StarWarsInfo/Integrations/Swapi/SwapiFieldParser.cs:16-22 | the null markers; stated by `NullMarkersGiveNull` and `MarkersCaseSensitive` |
| SwapiFieldParser.RemoveNonNumerics | StarWarsInfo/Integrations/Swapi/SwapiFieldParser.cs:31-34 | the result holds only digits and `.`, and is no longer than the input |
| SwapiFieldParser.RemoveNonNumericsConcat | StarWarsInfo/Integrations/Swapi/SwapiFieldParser.cs:33 | stripping a concatenation strips each part |
| SwapiFieldParser.RemoveNonNumericsKeeps | StarWarsInfo/Integrations/Swapi/SwapiFieldParser.cs:33 | a text of digits and `.` is kept as is |
| SwapiFieldParser.RemoveNonNumericsDrops | StarWarsInfo/Integrations/Swapi/SwapiFieldParser.cs:33 | a text with none of them becomes empty |
| SwapiFieldParser.RemoveNonNumericsIdempotent | StarWarsInfo/Integrations/Swapi/SwapiFieldParser.cs:33 | stripping twice equals stripping once |
| SwapiFieldParser.RemoveNonNumericsMembers | StarWarsInfo/Integrations/Swapi/SwapiFieldParser.cs:33 | a character is in the result exactly when it is in the input and is a digit or `.` |
| SwapiFieldParser.ParseInt32 | StarWarsInfo/Integrations/Swapi/SwapiFieldParser.cs:49 | a parsed value lies within the 32-bit signed range |
| SwapiFieldParser.ParseUInt64 | StarWarsInfo/Integrations/Swapi/SwapiFieldParser.cs:93 | a parsed value lies within the 64-bit unsigned range |
| SwapiFieldParser.ParseDigits | StarWarsInfo/Integrations/Swapi/SwapiFieldParser.cs:49-93 | a digit string parses to its value, or overflows past the type's maximum |
| SwapiFieldParser.ParseInt32RoundTrip | StarWarsInfo/Integrations/Swapi/SwapiFieldParser.cs:105 | every 32-bit integer's decimal text parses back to it |
| SwapiFieldParser.RawTextToIntNullable | StarWarsInfo/Integrations/Swapi/SwapiFieldParser.cs:43-50 | null markers give null; a parsed value lies in the 32-bit range |
| SwapiFieldParser.RawTextToDecimalNullable | StarWarsInfo/Integrations/Swapi/SwapiFieldParser.cs:59-66 | null markers give null |
| SwapiFieldParser.RawTextToUlongNullable | StarWarsInfo/Integrations/Swapi/SwapiFieldParser.cs:87-94 | null markers give null; a parsed value lies in the 64-bit unsigned range |
| SwapiFieldParser.RawTextToDecimal | StarWarsInfo/Integrations/Swapi/SwapiFieldParser.cs:75-78 | `decimal.Parse` of the stripped text without a marker check; stated by `UnknownDecimal`, `CurrencyAmount`, `NumberWithUnit`, `DecimalWithPoint`, `DecimalWithoutPoint` and `TwoPointsFormatError` |
| SwapiFieldParser.RawUrlToId | StarWarsInfo/Integrations/Swapi/SwapiFieldParser.cs:102-106 | a parsed id lies in the 32-bit range; which id is stated by `UrlId`, `BlankUrlThrows` and `TrailingBlankUrl` |
| SwapiFieldParser.TrimEnd | StarWarsInfo/Integrations/Swapi/SwapiFieldParser.cs:104 | the result is a prefix, everything cut is the trimmed character, and the result does not end with it |
| SwapiFieldParser.LastSegment | StarWarsInfo/Integrations/Swapi/SwapiFieldParser.cs:104-105 | the result is the suffix after the last separator: it holds no separator and is preceded by one when shorter than the text |
| SwapiFieldParser.LastSegmentAfter | StarWarsInfo/Integrations/Swapi/SwapiFieldParser.cs:104 | the text after the last separator is the last segment |
| SwapiFieldParser.TrimEndSlashes | StarWarsInfo/Integrations/Swapi/SwapiFieldParser.cs:104 | trimming removes exactly the trailing run of the character |
| SwapiFieldParser.UrlId | StarWarsInfo/Integrations/Swapi/SwapiFieldParser.cs:102-106 | the id of a URL is its last non-empty segment parsed, whatever number of trailing slashes |
| SwapiFieldParser.BlankFormatError | StarWarsInfo/Integrations/Swapi/SwapiFieldParser.cs:105 | an empty or blank text fails to parse with a format error |
| SwapiFieldParser.BlankUrlThrows | StarWarsInfo/Integrations/Swapi/SwapiFieldParser.cs:102-106 | an empty or blank URL throws a format error |
| SwapiFieldParser.TrailingBlankUrl | StarWarsInfo/Integrations/Swapi/SwapiFieldParser.cs:104-105 | a URL ending in `/` and spaces throws a format error, since only `/` is trimmed |
| SwapiFieldParser.NullMarkersGiveNull | StarWarsInfo/Integrations/Swapi/SwapiFieldParser.cs:16-22 | an empty text, spaces, `unknown` and `n/a` give null from all three nullable parsers |
| SwapiFieldParser.MarkersCaseSensitive | StarWarsInfo/Integrations/Swapi/SwapiFieldParser.cs:20-21 | `Unknown` and `N/A` are not null markers |
| SwapiFieldParser.IntNullableOk | StarWarsInfo/Integrations/Swapi/SwapiFieldParser.cs:43-50 | the parser gives a value exactly when the text is not a marker and its stripped form is a non-empty digit string whose value fits in 32 bits |
| SwapiFieldParser.StrippedParse | StarWarsInfo/Integrations/Swapi/SwapiFieldParser.cs:49 | a text of digits and `.` parses to its value when it is a non-empty digit string that fits, fails with a format error when empty or holding `.`, and overflows otherwise |
| SwapiFieldParser.IntegerFormatErrors | StarWarsInfo/Integrations/Swapi/SwapiFieldParser.cs:43-94 | a non-marker text containing `.` or no digit throws a format error in both integer parsers |
| SwapiFieldParser.MinusStripped | StarWarsInfo/Integrations/Swapi/SwapiFieldParser.cs:33-93 | a leading minus is stripped, so `-5` parses as 5 |
| SwapiFieldParser.DigitFreeThrows | StarWarsInfo/Integrations/Swapi/SwapiFieldParser.cs:43-94 | a non-marker text without digits throws a format error in both integer parsers |
| SwapiFieldParser.ParseStrippedDecimal | StarWarsInfo/Integrations/Swapi/SwapiFieldParser.cs:65-77 | `decimal.Parse` of a stripped text: an empty text is a format error, and a parsed value's scale is below the text's length; stated by `DecimalWithPoint`, `DecimalWithoutPoint` and `TwoPointsFormatError` |
| SwapiFieldParser.TwoPointsFormatError | StarWarsInfo/Integrations/Swapi/SwapiFieldParser.cs:65-77 | a stripped text with two points fails with a format error |
| SwapiFieldParser.DecimalWithPoint | StarWarsInfo/Integrations/Swapi/SwapiFieldParser.cs:65-77 | `whole.fraction` parses to the digits' value scaled by the fraction's length |
| SwapiFieldParser.DecimalWithoutPoint | StarWarsInfo/Integrations/Swapi/SwapiFieldParser.cs:65-77 | a digit string parses to its value with scale 0 |
| SwapiFieldParser.UnknownDecimal | StarWarsInfo/Integrations/Swapi/SwapiFieldParser.cs:59-78 | `unknown` throws in the plain decimal parser and gives null in the nullable one |
| SwapiFieldParser.StrippedToNat | StarWarsInfo/Integrations/Swapi/SwapiFieldParser.cs:43-50 | a text whose stripped form is a number's decimal text parses to that number |
| SwapiFieldParser.StrippedDigits | StarWarsInfo/Integrations/Swapi/SwapiFieldParser.cs:43-50 | a text whose stripped form is a digit string parses to its value or overflows |
| SwapiFieldParser.ThousandsSeparator | StarWarsInfoTest/Integrations/Swapi/SwapiFieldParserTests.cs:41-47 | a thousands separator is stripped: `x,y` parses as the digits `xy` in both integer parsers |
| SwapiFieldParser.PaddedNumber | StarWarsInfoTest/Integrations/Swapi/SwapiFieldParserTests.cs:41-47 | spaces and leading zeros around a number do not change its value |
| SwapiFieldParser.LabelledNumber | StarWarsInfo/Integrations/Swapi/SwapiFieldParser.cs:43-50 | a caption without digits before a number is stripped |
| SwapiFieldParser.StripCurrency | StarWarsInfo/Integrations/Swapi/SwapiFieldParser.cs:33 | a currency caption and thousands separators are stripped from an amount |
| SwapiFieldParser.CurrencyAmount | StarWarsInfoTest/Integrations/Swapi/SwapiFieldParserTests.cs:72-90 | an amount like `$1,234.50` parses as the decimal 123450 with scale 2 in both decimal parsers |
| SwapiFieldParser.NumberWithUnit | StarWarsInfo/Integrations/Swapi/SwapiFieldParser.cs:59-78 | a number followed by a digit-free unit parses as the number with scale 0 |
| SwapiFieldParser.UlongPastInt32 | StarWarsInfoTest/Integrations/Swapi/SwapiFieldParserTests.cs:107-112 | a number above the 32-bit maximum parses as ulong but overflows as int |
| SwapiMapping.FirstError | StarWarsInfo/Integrations/Swapi/Mappers/StarshipMapper.cs:38-58 | the initialiser's escaping exception is null exactly when none throws, and otherwise the first that throws |
| StarshipMapping.ToStarship | StarWarsInfo/Integrations/Swapi/Mappers/StarshipMapper.cs:38-58 | a mapped starship holds the parsed id and numbers, the title-cased texts and the copied consumables and dates |
| StarshipMapping.InitialiseFailsFirst | StarWarsInfo/Integrations/Swapi/Mappers/StarshipMapper.cs:38-58 | the mapping throws exactly when some parser throws, and then with the first exception in initialiser order |
| StarshipMapping.ToStarshipFailsFirst | StarWarsInfo/Integrations/Swapi/Mappers/StarshipMapper.cs:38-58 | the mapping throws exactly when one of its parser calls does, and then with the first one's exception |
| StarshipMapping.UnknownLengthThrows | StarWarsInfo/Integrations/Swapi/Mappers/StarshipMapper.cs:45 | a length of `unknown` makes the mapping throw, since the length uses the non-nullable decimal parser |
| StarshipMapping.MarkersGiveNullFields | StarWarsInfo/Integrations/Swapi/Mappers/StarshipMapper.cs:44-52 | null markers in the nullable fields give null values |
| StarshipMapping.DefaultThrows | StarWarsInfo/Integrations/Swapi/Mappers/StarshipMapper.cs:32-40 | a default mapper throws a format error from its empty URL |
| VehicleMapping.ToVehicle | StarWarsInfo/Integrations/Swapi/Mappers/VehicleMapper.cs:35-51 | a mapped vehicle holds the parsed id and numbers, the title-cased texts and the copied fields and dates |
| VehicleMapping.InitialiseFailsFirst | StarWarsInfo/Integrations/Swapi/Mappers/VehicleMapper.cs:35-51 | the mapping throws exactly when some parser throws, and then with the first exception in initialiser order |
| VehicleMapping.ToVehicleFailsFirst | StarWarsInfo/Integrations/Swapi/Mappers/VehicleMapper.cs:35-51 | the mapping throws exactly when one of its parser calls does, and then with the first one's exception |
| VehicleMapping.UnknownCostAndLength | StarWarsInfo/Integrations/Swapi/Mappers/VehicleMapper.cs:41-42 | `unknown` cost and length give null values |
| VehicleMapping.TextFieldsNeverThrow | StarWarsInfo/Integrations/Swapi/Mappers/VehicleMapper.cs:46-47 | cargo capacity and consumables are copied as text and cannot decide whether the mapping throws |
| VehicleMapping.DefaultThrows | StarWarsInfo/Integrations/Swapi/Mappers/VehicleMapper.cs:29-37 | a default mapper throws a format error from its empty URL |
| SpeciesMapping.ToSpecies | StarWarsInfo/Integrations/Swapi/Mappers/SpeciesMapper.cs:34-49 | a mapped species holds the parsed id, numbers and homeworld id, the title-cased texts and the copied fields and dates |
| SpeciesMapping.InitialiseFailsFirst | StarWarsInfo/Integrations/Swapi/Mappers/SpeciesMapper.cs:34-49 | the mapping throws exactly when some parser throws, and then with the first exception in initialiser order |
| SpeciesMapping.ToSpeciesFailsFirst | StarWarsInfo/Integrations/Swapi/Mappers/SpeciesMapper.cs:34-49 | the mapping throws exactly when one of its parser calls does, and then with the first one's exception |
| SpeciesMapping.LifespanErrorEscapes | StarWarsInfo/Integrations/Swapi/Mappers/SpeciesMapper.cs:44 | once the id and height parse, an exception from the lifespan escapes whatever the homeworld |
| SpeciesMapping.DigitFreeLifespanThrows | StarWarsInfo/Integrations/Swapi/Mappers/SpeciesMapper.cs:44 | a digit-free lifespan such as `indefinite` throws a format error |
| SpeciesMapping.DefaultThrows | StarWarsInfo/Integrations/Swapi/Mappers/SpeciesMapper.cs:34-49 | a default mapper throws a format error from its empty URL |
| PlanetMapping.ToPlanet | StarWarsInfo/Integrations/Swapi/Mappers/PlanetMapper.cs:33-47 | a mapped planet holds the parsed id and numbers, the title-cased texts and the copied fields and dates |
| PlanetMapping.InitialiseFailsFirst | StarWarsInfo/Integrations/Swapi/Mappers/PlanetMapper.cs:33-47 | the mapping throws exactly when some parser throws, and then with the first exception in initialiser order |
| PlanetMapping.ToPlanetFailsFirst | StarWarsInfo/Integrations/Swapi/Mappers/PlanetMapper.cs:33-47 | the mapping throws exactly when one of its parser calls does, and then with the first one's exception |
| PlanetMapping.GravityKept | StarWarsInfo/Integrations/Swapi/Mappers/PlanetMapper.cs:41 | once the other fields parse, the planet's gravity is the parsed gravity text |
| PlanetMapping.GravityWithUnit | StarWarsInfo/Integrations/Swapi/Mappers/PlanetMapper.cs:41 | a gravity like `1 standard` becomes the decimal 1 |
| PlanetMapping.DefaultThrows | StarWarsInfo/Integrations/Swapi/Mappers/PlanetMapper.cs:33-47 | a default mapper throws a format error from its empty URL |
| PersonMapping.ToPerson | StarWarsInfo/Integrations/Swapi/Mappers/PersonMapper.cs:25-42 | a mapped person holds the parsed id, height, mass and homeworld id, the title-cased texts and the copied birth year and dates |
| PersonMapping.InitialiseFailsFirst | StarWarsInfo/Integrations/Swapi/Mappers/PersonMapper.cs:25-42 | the mapping throws exactly when some parser throws, and then with the first exception in initialiser order |
| PersonMapping.ToPersonFailsFirst | StarWarsInfo/Integrations/Swapi/Mappers/PersonMapper.cs:25-42 | the mapping throws exactly when one of its parser calls does, and then with the first one's exception |
| PersonMapping.HomeworldErrorEscapes | StarWarsInfo/Integrations/Swapi/Mappers/PersonMapper.cs:38 | once the id, height and mass parse, an exception from the homeworld URL escapes |
| PersonMapping.BlankHomeworldThrows | StarWarsInfo/Integrations/Swapi/Mappers/PersonMapper.cs:16-38 | the default empty homeworld makes the mapping throw a format error |
| PersonMapping.DefaultThrows | StarWarsInfo/Integrations/Swapi/Mappers/PersonMapper.cs:25-42 | a default mapper throws a format error from its empty URL |
| FilmMapping.ToFilm | StarWarsInfo/Integrations/Swapi/Mappers/FilmMapper.cs:26-42 | the mapping throws exactly when the URL does not parse, with its exception; otherwise the film holds the id, the verbatim title and crawl, the title-cased director and producer and the copied dates |
| FilmMapping.TitleAndCrawlVerbatim | StarWarsInfo/Integrations/Swapi/Mappers/FilmMapper.cs:29-31 | title and opening crawl are not title-cased |
| FilmMapping.FilmIdFromUrl | StarWarsInfo/Integrations/Swapi/Mappers/FilmMapper.cs:28 | a URL ending in a number and slashes gives that number as the film id |
| FilmMapping.DefaultThrows | StarWarsInfo/Integrations/Swapi/Mappers/FilmMapper.cs:11-28 | a default mapper, whatever the two `DateTime.Now` readings of its dates, throws a format error from its empty URL |

## Left out

- `FromJson` in every mapper: JSON deserialisation (System.Text.Json) is outside the model, and each mapper starts from its record of texts. Every text is assumed non-null: a JSON `null` stored in a `string` field would make `Regex.Replace` in `RemoveNonNumerics` (StarWarsInfo/Integrations/Swapi/SwapiFieldParser.cs:33) throw `ArgumentNullException`.
- `RawTextToTitleCase` and `RawUrlToIdNullable`: these are not defined in `SwapiFieldParser.cs`, so they are the parameters `TitleCase` and `UrlToIdNullable`.
- The mapper `Initialise` functions: these evaluate every parser call up front, then pick the first exception in initialiser order. The parsers are pure, so this gives what the C# initialiser gives.
- `DateTime` and `DateOnly` values are opaque and copied unchanged. The film mapper's two `DateTime.Now` defaults are the parameters `createdNow` and `editedNow`.
- Unicode digits: only ASCII `0`-`9` count as `\d`.
- Culture-specific separators: the en-US/invariant culture is assumed.
- Decimal rounding or overflow past 28 significant digits.
- DataTableCellFormat.FormatHeaderText: upper-cases ASCII letters only and keeps every other character. JavaScript `toUpperCase` applies full Unicode case mapping (`é` to `É`, `ß` to `SS`, which changes the length), and `charAt(0)` can split a surrogate pair. Field names are assumed ASCII, so `HeaderTextPointwise` (the length is kept) and `HeaderTextIdempotent` hold for ASCII field names only.
- SwapiFieldParser.RawTextToDecimalNullable: states the null-marker case only. Everything else is stated by the lemmas on the stripped text (`DecimalWithPoint`, `DecimalWithoutPoint`, `TwoPointsFormatError`, `CurrencyAmount`, `NumberWithUnit`).
- `toLocaleString`, `toFixed`, `toLocaleDateString` and `Intl.NumberFormat` are function parameters. Locale data is outside the model.
- `new Date(v)` is the parameter `toDate`, and a `Date` is its components or invalid. JavaScript number arithmetic, NaN propagation and floating point are not modelled. Infinity is a sentinel value.
- SwapiDataTable.AfterDelete: strict equality on arrays, objects and dates is modelled as never true (`Js.StrictEquals`), because a `Value` has no identity. A delete whose key value is such a reference therefore removes the last row, where JavaScript finds and removes that very row, since `rowData` is taken from `tableData`. The app's data keys are primitive `*_id` fields, where the model and JavaScript agree. `SwapiDataTable.FindIndex` is limited in the same way.
- DataTableColumn.DefaultFiltersKeys: field names are assumed not to be integer-like (such as `"1"`). JavaScript lists integer-like keys of a plain object first, in ascending order, for spread, `Object.keys` and `Object.entries`; the model keeps insertion order for every key. For such names the key orders stated by `DataTableColumn.DefaultFiltersKeys`, `DataTableColumn.DataKeyIsFirstMarked`, `DataTableFilters.DefaultFilters`, `StarWarsInfoClient.GetDateFields`, `DateUtils.ConvertedObject` and `DataTableEditForm.WithFieldSets` are not JavaScript's. The app's field names are all non-numeric.
- DataTableEditor.ReadOnlyRule: the calendar's `readOnlyInput` blocks typing only; a date chosen in its picker still reaches `editorCallback`, and the picker is not modelled.
- The network: each `fetch` is a `Response` parameter (network failure, or status and body), and the handlers return the request they would send. Keycloak's initialization is the `initialized` flag. The token passed as an extra argument is ignored by the client functions, which do not declare it, and `VITE_API_URL` is the `base` parameter.
- React concurrency, effect scheduling and stale closures: each handler runs to completion on the current state.
- The import flow (`importData`, SwapiDataTable.tsx lines 93-144). The model only reports whether the import prompt would be shown.
- The window-resize effect (SwapiDataTable.tsx lines 68-72): layout only.
- Toast messages and confirmation dialogs: a delete is modelled on its confirmed path.
- The table header JSX (DataTableColumn.tsx lines 195-214): presentation only.
- The text, id, date, dropdown, multiselect and boolean filter widgets: only the number filter keeps draft state. The others forward values through the callback cache.
- The default branch of the editor switch (DataTableEditor.tsx lines 86-88): the seven-kind field type makes it unreachable.
- SwapiDataTable.SwapiGrid.OnFetch: does not model the loading flag during the request, only after it.
