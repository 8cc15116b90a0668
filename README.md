# Field types of the data-management system, in Dafny

The data-management system stores tables whose columns have one of six types:
`integer`, `real`, `char`, `string`, `date` and `dateInvl` (a date interval). A React
front end creates tables, adds rows, edits rows and lists them. A Python server checks
every cell value against its column's type. This project models the type machinery on
both sides and proves what it does.

Front end:

- `RowForm`: the add-row form (`create_table_row.js`). It covers:
  - the per-type rules of `validateField`;
  - the draft record built from the column list;
  - the merge of one input into the draft;
  - the validation, payload and outcome of a submission.
- `RowFormFacts`: properties of that form. These include the consequences of the
  switch reading `field.type`, a property the column records never have.
- `TableForm`: the create-table form (`create_table_form.js`), a class whose column
  entries are mutated in place, plus its guarded submission.
- `EditRow`: the edit-row form (`edit_table_row.js`). It is a class whose entries are the
  parent's own objects. It also carries the `isSubmitting` flag and the request it sends.
- `TableView`: the table (`table.js`), a pure mapping from records to header and cells.
- Supporting modules:
  - `JsText` has ECMAScript `trim`, UTF-16 `length` and the two regular expressions.
  - `JsObjects` has objects with the property enumeration order of ECMAScript
    (array-index keys ascending, then the other keys in creation order), `{ ...o }`
    and `Object.entries`.
  - `Api` has what the components share.

Server:

- `Python`: the Python values, exceptions and `str`/truthiness the validators rely on.
- `FieldTypes`: the `FieldType` enum of `type.py`. It holds the acceptance rules and
  `validate`, which finds the rule through the lower-cased member name.
- `Items`: `TableItemField` and `TableItem` of `item.py`.
- `Tables`: `Table` of `table.py`, with columns, lookup by name and id normalisation.
- `DateIntervals`: `DateInterval` of `dateinvl.py`.
- `Wire`: what the server's rules make of what the front end sends. It also proves that
  the three sides use the same six tags.

Date parsing enters as parameters:

- `Date.parse`, and `new Date`, which parses its argument the same way, become
  `dateParse: string -> Option<int>`. None stands for NaN; otherwise the result is the
  time value.
- dateutil's `parse` becomes `parse: string -> Outcome<DateTime>`, where a `Raise`
  carries the exception it throws.
- `datetime.isoformat` becomes `isoformat: DateTime -> string`.
- React's number-to-text conversion becomes `showNumber`.
- Python's `str` of floats, datetimes and models becomes `show`.

Network responses are inputs: `Response` is a status or a transport error. Callbacks
such as `onAdd` or `onClose` are returned as a list, not called.

## Model

| member | source | states |
|---|---|---|
| RowForm.ValidateField | svc/front/src/component/create_table_row.js:22-57 | the result is "" or one of the eight messages; a missing tag or one outside the six yields ""; under the `dateInvl` tag "" means both ends are present, parse, and the start is strictly earlier |
| RowForm.BuildRowData | svc/front/src/component/create_table_row.js:5-18 | the `forEach` loop builds exactly the draft `InitialDraft(fields)` |
| RowForm.InitialDraftKeys | svc/front/src/component/create_table_row.js:7-17 | the initial draft is well formed; it has one slot per distinct field name, in order of first appearance, and a key is a slot exactly when it is some field's name |
| RowForm.InitialDraftSlots | svc/front/src/component/create_table_row.js:8-16 | every field has a slot in the initial draft |
| RowForm.InitialDraftValues | svc/front/src/component/create_table_row.js:10-14 | a slot holds `{start_date:"", end_date:""}` when the last field with that name is a `dateInvl` field, and `""` otherwise |
| RowForm.FirstNamesOfDistinct | svc/front/src/component/create_table_row.js:8-16 | with pairwise different names the slots are created in field order |
| RowForm.Spread | svc/front/src/component/create_table_row.js:64 | `{ ...undefined }` is empty, an object spreads to its own properties, and a string spreads to its characters under their decimal indices, so it never has a `start_date` or `end_date` key |
| RowForm.InputChanged | svc/front/src/component/create_table_row.js:59-69 | the new draft holds the old values with only the edited field's slot replaced by the merged slot, and stays well formed |
| RowForm.InputChangeIsLocal | svc/front/src/component/create_table_row.js:59-69 | an input replaces the edited field's slot by the new slot value and changes no other slot; an existing slot keeps the enumeration order |
| RowForm.IntervalEditKeepsOtherEnd | svc/front/src/component/create_table_row.js:62-64 | editing one end of an interval sets that end and keeps the other |
| RowForm.AddTableRow.constructor | svc/front/src/component/create_table_row.js:5-20 | the form starts with the initial draft and no errors |
| RowForm.AddTableRow.HandleInputChange | svc/front/src/component/create_table_row.js:59-76 | called only with one of the form's fields, as the inputs are rendered from `fields`; the draft becomes the merged copy; `errors` gains (or replaces) only the edited field's message; the invariant (every field has a slot, every slot is a field's name) is kept |
| RowForm.CollectErrors | svc/front/src/component/create_table_row.js:86-90 | the loop computes exactly `SubmitErrors` |
| RowForm.SubmitErrorsKeys | svc/front/src/component/create_table_row.js:86-90 | a name is a key of `newErrors` exactly when some field with that name has a non-empty error |
| RowForm.SubmitErrorsValues | svc/front/src/component/create_table_row.js:86-90 | for each name, `newErrors` holds the error of the last failing field with that name |
| RowForm.FirstNamedIsFirst | svc/front/src/component/create_table_row.js:99-103 | `filter(...)[0]` is undefined exactly when no field has the name; otherwise it is the first field with it |
| RowForm.PayloadOfShape | svc/front/src/component/create_table_row.js:96-108 | the `map` throws exactly when some entry's key names no field; otherwise there is one element per entry, with the entry's key and value and the first matching field's type |
| RowForm.PayloadShape | svc/front/src/component/create_table_row.js:96-108 | when every slot belongs to a field, the payload has one entry per slot in the draft's enumeration order, carrying the slot's value and the first matching field's type; the names are pairwise different |
| RowForm.SubmitPostsIffValid | svc/front/src/component/create_table_row.js:86-121 | a POST happens exactly when every field's error is empty (given every slot belongs to a field) |
| RowForm.AddTableRow.HandleSubmit | svc/front/src/component/create_table_row.js:78-121 | `errors` becomes `newErrors`; the outcome is blocked by validation or the POST to `/database/{db}/table/{table_id}/item` with `{items: payload}`, never a TypeError while building the payload; the POST happens exactly when every field's error is empty |
| RowForm.CallbacksOnlyOnSuccess | svc/front/src/component/create_table_row.js:122-139 | callbacks run only on status 200; then `onClose` comes last and `onAdd` runs exactly when it is given |
| RowFormFacts.IntegerRule | svc/front/src/component/create_table_row.js:27-29 | the integer rule passes a text exactly when it is in the language of `^-?\d+$`; the only error is "Must be an integer."; an object always fails |
| RowFormFacts.RealRule | svc/front/src/component/create_table_row.js:37-39 | the real rule passes a text exactly when it is in the language of `^-?\d+(\.\d+)?$`; the only error is "Must be a real number."; an object always fails |
| RowFormFacts.StringRule | svc/front/src/component/create_table_row.js:30-33 | the string rule fails exactly when the value is not a string or is white space only |
| RowFormFacts.CharRule | svc/front/src/component/create_table_row.js:34-36 | the char rule passes exactly a text of one UTF-16 code unit |
| RowFormFacts.DateRule | svc/front/src/component/create_table_row.js:40-42 | the date rule passes exactly when `Date.parse` of the value's string form is a number |
| RowFormFacts.IntervalRule | svc/front/src/component/create_table_row.js:43-51 | the interval rule's priority: a missing, empty or unparsable start is reported first, then the end; the result is "" exactly when both parse and the start is strictly earlier |
| RowFormFacts.UnknownTagAccepts | svc/front/src/component/create_table_row.js:52-56 | a tag outside the six, or no tag, yields "" |
| RowFormFacts.IntegerScenario | svc/front/src/component/create_table_row.js:27-39 | concrete cases: "abc" and "4.2" fail the integer rule; "42" and "-7" pass it; "4.2" passes the real rule and "4." fails it |
| RowFormFacts.AsWrittenNothingFails | svc/front/src/component/create_table_row.js:23-26 | reading `type` from the column records, submission never collects an error |
| RowFormFacts.AsWrittenPostsEmptyInteger | svc/front/src/component/create_table_row.js:86-121 | as written, an untouched form with one integer column is posted with an empty value |
| RowFormFacts.IntendedRejectsDefault | svc/front/src/component/create_table_row.js:22-51 | with the tag from `field_type`, the default value of each of the six types fails its rule |
| RowFormFacts.IntendedBlocksIffInvalid | svc/front/src/component/create_table_row.js:86-94 | with the tag from `field_type`, a submission is blocked exactly when some field's rule fails |
| RowFormFacts.IntendedBlocksUntouchedForm | svc/front/src/component/create_table_row.js:5-94 | with the tag from `field_type`, an untouched form with at least one column is never posted |
| RowFormFacts.PayloadFollowsColumns | svc/front/src/component/create_table_row.js:96-108 | with pairwise different names and no array-index name, the payload follows column order |
| RowFormFacts.PayloadReordersIndexNames | svc/front/src/component/create_table_row.js:96 | a column named "1" after one named "b" comes first in `Object.entries` |
| JsText.TrimEmptyIff | svc/front/src/component/create_table_row.js:31 | `trim()` yields "" exactly when every character is ECMAScript white space or a line terminator |
| JsText.Trim | svc/front/src/component/create_table_row.js:31 | `trim()` is the infix of its input left after cutting white space only, at both ends; neither end of the result is white space, which fixes the result |
| JsText.SingleCodeUnit | svc/front/src/component/create_table_row.js:35 | `length` is 1 exactly for one character of the Basic Multilingual Plane |
| JsText.IntegerMatcherCorrect | svc/front/src/component/create_table_row.js:28 | the left-to-right scan accepts exactly the language `-?` then `\d+` |
| JsText.RealMatcherCorrect | svc/front/src/component/create_table_row.js:38 | the scan accepts exactly the language `-?`, `\d+`, then an optional `.` and `\d+` |
| JsText.IntegerIsReal | svc/front/src/component/create_table_row.js:27-39 | every integer-valid text is real-valid |
| JsObjects.Put | svc/front/src/component/create_table_row.js:11-13 | assigning a key keeps the object well formed; a new key is created last (array-index keys are still enumerated first) and an existing key keeps its creation position |
| JsObjects.Copy | svc/front/src/component/create_table_row.js:60 | `{ ...o }` has the same properties in the same enumeration order |
| JsObjects.Entries | svc/front/src/component/create_table_row.js:96 | `Object.entries` lists each own property once, in enumeration order, with its value |
| JsObjects.OwnKeysAreProperties | svc/front/src/component/create_table_row.js:96 | the enumeration lists exactly the properties, without repetition |
| JsObjects.OrderKeysPermutation | svc/front/src/component/create_table_row.js:96 | the enumeration order is a permutation of the creation order |
| JsObjects.IndicesFirst | svc/front/src/component/create_table_row.js:96 | array-index keys precede all other keys and are ascending |
| JsObjects.OrderKeysWithoutIndices | svc/front/src/component/create_table_row.js:96 | without array-index keys the enumeration is the creation order |
| JsObjects.OrderKeysIdempotent | svc/front/src/component/create_table_row.js:60 | re-enumerating a copy changes nothing |
| Decimal.DecimalRoundTrip | svc/front/src/component/create_table_row.js:64 | the decimal spelling of an index reads back as that index, so the keys `{ ...s }` gives the characters of a string are pairwise different |
| TableForm.CreateTableForm.constructor | svc/front/src/component/create_table_form.js:5-6 | the form starts with an empty name and the single column `{field_name:"", field_type:"string"}` |
| TableForm.CreateTableForm.SetTableName | svc/front/src/component/create_table_form.js:81 | the table name input sets the name to the typed text |
| TableForm.CreateTableForm.HandleAddField | svc/front/src/component/create_table_form.js:11-13 | one fresh default entry is appended; earlier entries are the same objects and are unchanged; entries stay distinct objects |
| TableForm.CreateTableForm.HandleRemoveField | svc/front/src/component/create_table_form.js:16-20 | the list becomes `splice(index, 1)` of the old list, with negative and out-of-range indices as `splice` treats them; it loses one entry exactly when the index is below the length of a non-empty list, so with more than one column (the remove button is disabled for one, lines 130-137) the list never becomes empty |
| TableForm.SpliceRemovesOne | svc/front/src/component/create_table_form.js:18 | for an index in range exactly that element goes, the rest keep their order and the length drops by one; an index past the end removes nothing; a negative index counts from the end |
| TableForm.CreateTableForm.HandleFieldChange | svc/front/src/component/create_table_form.js:23-27 | the entry at `index` is changed in place under the given key and nothing else changes; there is a TypeError exactly when there is no entry at `index` |
| TableForm.SubmitRequest | svc/front/src/component/create_table_form.js:32-41 | nothing is sent exactly when the name trims to "" or there are no columns; otherwise the payload is `{database_name, table_name, table_fields}` |
| TableForm.CreateTableForm.HandleSubmit | svc/front/src/component/create_table_form.js:30-54 | the guarded request built from the current entries |
| TableForm.CreateCallbacks | svc/front/src/component/create_table_form.js:55-64 | `onCreate` runs exactly on status 200 when it is given |
| EditRow.EditTableRow.constructor | svc/front/src/component/edit_table_row.js:5-6 | `rowData` is the item's own `items` and the form is not submitting |
| EditRow.EditTableRow.HandleInputChange | svc/front/src/component/edit_table_row.js:9-13 | only `field_value` of entry `idx` changes, to the typed text; the list and the other entries are unchanged; the parent's entry object is the one mutated; there is a TypeError exactly when there is no entry at `idx` |
| EditRow.EditTableRow.HandleSubmit | svc/front/src/component/edit_table_row.js:16-22 | the flag goes up; the POST goes to the item's URL and has no body |
| EditRow.EditTableRow.Settle | svc/front/src/component/edit_table_row.js:23-36 | at settlement the flag goes down and the `.then` callbacks are returned |
| EditRow.UpdateCallbacks | svc/front/src/component/edit_table_row.js:23-31 | callbacks run only on status 200; then `onClose` comes last and `onUpdate` runs exactly when it is given |
| TableView.Render | svc/front/src/component/table.js:3-42 | the component function throws exactly when some record has a `dateInvl` entry whose value is `null`; otherwise the header is exactly `cols` and there is one body row per record, in order; React's refusal of an object child is stated by `TableView.DisplaysIff` |
| TableView.RowOf | svc/front/src/component/table.js:18-36 | a row throws exactly when one of its entries is a `null` interval; otherwise it is keyed by the record's id, a click passes the whole record, and there is one cell per entry, by position |
| TableView.CellOf | svc/front/src/component/table.js:29-33 | a `dateInvl` cell throws exactly when its value is `null`, and is otherwise `start_date`, a single space and `end_date`; any other cell is the value itself as its one child |
| TableView.IntervalCellText | svc/front/src/component/table.js:31 | an interval with string ends shows as start, one space, end |
| TableView.ValueCellText | svc/front/src/component/table.js:32 | a string value shows unchanged |
| TableView.JsonText | svc/front/src/component/table.js:31-32 | a child value fails to render exactly when it is, or an array holds, a plain object; a string shows as itself |
| TableView.NodeText | svc/front/src/component/table.js:31-32 | a cell child shows literal text as itself and `undefined` as nothing, and fails exactly for a value holding a plain object |
| TableView.ArrayCellText | svc/front/src/component/table.js:32 | an array value shows its elements one after another, `null` as nothing |
| TableView.CellText | svc/front/src/component/table.js:29-33 | React refuses a cell exactly when one of its value children holds a plain object |
| TableView.CellFailsIff | svc/front/src/component/table.js:29-33 | an entry fails to show (a `null` interval, an interval end holding an object, or any other value holding an object) exactly when its cell throws in the component or React refuses one of its children |
| TableView.DisplaysIff | svc/front/src/component/table.js:3-42 | the page shows, meaning `Table` returns and React accepts every cell, exactly when no entry of any record fails to show |
| TableView.ObjectValueFails | svc/front/src/component/table.js:32 | a plain object in a string column: `Table` returns its elements, but the page does not show |
| TableView.BodyIgnoresColumns | svc/front/src/component/table.js:27-35 | whether rendering throws, and the body, do not depend on `cols` |
| TableView.MisalignedRow | svc/front/src/component/table.js:7-35 | a record with more entries than columns gives more cells than header cells |
| TableView.NullIntervalThrows | svc/front/src/component/table.js:31 | one record with a `null` interval value makes the whole table throw, whatever the other records are |
| FieldTypes.ValueRoundTrip | svc/server/src/types/type.py:11-19 | looking a member up by its value finds it, and exactly the six values are found |
| FieldTypes.ValidateInteger | svc/server/src/types/type.py:21-24 | an `int`, `bool` included, is returned unchanged; anything else raises ValueError("bad values provided to the field.") |
| FieldTypes.ValidateReal | svc/server/src/types/type.py:26-29 | exactly a `float` is accepted, unchanged; an `int` raises; nothing the real rule accepts passes the integer rule |
| FieldTypes.ValidateChar | svc/server/src/types/type.py:31-34 | exactly a `str` of one code point is accepted, unchanged; every char also passes the string rule |
| FieldTypes.ValidateString | svc/server/src/types/type.py:36-39 | every `str`, "" included, is accepted unchanged |
| FieldTypes.ValidateDate | svc/server/src/types/type.py:41-43 | a string gives what `parse` gives; anything else raises TypeError |
| FieldTypes.ValidateDateInterval | svc/server/src/types/type.py:45-47 | the result is that of `DateInterval(**value)` |
| FieldTypes.Validate | svc/server/src/types/type.py:49-62 | `validate` gives, for every member, the result of that member's own rule |
| FieldTypes.DispatchIsTotal | svc/server/src/types/type.py:49-62 | for every member the name `_validate_` plus lower-cased member name is a defined method, and it is the member's own rule |
| FieldTypes.ValueDispatchWouldFail | svc/server/src/types/type.py:62 | dispatching on the value instead of the name would look up `_validate_dateinvl`, which does not exist |
| Items.ValidateFieldValue | svc/server/src/types/item.py:41-46 | a `datetime` passes unchanged whatever the type; anything else is the column type's rule |
| Items.SerializeFieldValue | svc/server/src/types/item.py:48-54 | a `datetime` becomes its ISO string; anything else is unchanged |
| Items.ItemId | svc/server/src/types/item.py:63-66 | the id is `str(value)`, so an explicit `None` becomes "None" |
| Items.DateTimePassesEveryType | svc/server/src/types/item.py:43-44 | a `datetime` is accepted even in an integer column |
| Items.DateCellRoundTrip | svc/server/src/types/item.py:41-54 | a serialised date cell validates to the same `datetime` when `parse` inverts `isoformat` |
| Items.ScalarCellRoundTrip | svc/server/src/types/item.py:41-54 | an accepted integer, real, char or string value serialises to itself and validates to itself again |
| Tables.Columns | svc/server/src/types/table.py:36-45 | the field names in field order, with the same length and duplicates kept |
| Tables.FindField | svc/server/src/types/table.py:47-64 | None exactly when no field has the name; otherwise the first field with that name |
| Tables.FindFieldUnique | svc/server/src/types/table.py:61-64 | with pairwise different names, looking up a field's name finds that field |
| Tables.NormalizeId | svc/server/src/types/table.py:21-34 | a falsy id becomes None and any other id becomes `str(id)` |
| Tables.IdRoundTrip | svc/server/src/types/table.py:21-34 | serialising a validated id gives it back (when `str` of a truthy value is never empty) |
| Tables.FalsyIds | svc/server/src/types/table.py:24-25 | `None`, `False`, `0`, `0.0`, `""` and `{}` become None; an ObjectId becomes its hexadecimal string |
| Python.IntToStringRoundTrip | svc/server/src/types/item.py:66 | `str` of an `int` has a sign exactly for negatives and reads back as the number |
| Python.StrOfTruthyNonEmpty | svc/server/src/types/table.py:24-26 | `str` of a truthy id is never empty (when `str` of floats, datetimes and models never is), so a normalised id is never "" |
| DateIntervals.ValidateDateAsWritten | svc/server/src/types/dateinvl.py:46-54 | as written: a `datetime` is kept, a parsed string becomes its `datetime`, a parse ValueError ends in the TypeError that `ValidationError(message)` raises, and an OverflowError passes through |
| DateIntervals.AsWrittenRaisesTypeError | svc/server/src/types/dateinvl.py:49-52 | the code as written differs from the corrected validator exactly on a string that `parse` rejects with a ValueError, and never raises a ValidationError |
| DateIntervals.ValidateDate | svc/server/src/types/dateinvl.py:40-54 | the corrected end validator: a `datetime` is kept; a parsed string becomes its `datetime`; a parse ValueError becomes a validation error "... is not matching any formats of date!", as the docstring promises; an OverflowError passes through; a value that is not a string raises TypeError |
| DateIntervals.Construct | svc/server/src/types/dateinvl.py:14-54 | a non-mapping raises TypeError; the interval is built exactly when both ends validate (with the corrected end validator), from the two validated ends; a failing start is reported first |
| DateIntervals.Serialize | svc/server/src/types/dateinvl.py:56-77 | both ends serialise through `isoformat` and there are no other keys |
| DateIntervals.NoOrderEnforced | svc/server/src/types/dateinvl.py:17-54 | two `datetime`s make an interval in either order |
| DateIntervals.ReversedStringsAccepted | svc/server/src/types/dateinvl.py:46-54 | two parsable strings make an interval even when the end is earlier |
| DateIntervals.SerializeRoundTrip | svc/server/src/types/dateinvl.py:46-77 | constructing from the serialised form gives the same interval when `parse` inverts `isoformat` |
| DateIntervals.ExtraKeysIgnored | svc/server/src/types/dateinvl.py:14-18 | other keys of the mapping do not change the result |
| DateIntervals.MissingFieldReported | svc/server/src/types/dateinvl.py:17-18 | a missing start, or a missing end after a valid start, is a required-field error |
| Wire.Decode | svc/front/src/component/create_table_row.js:112-121 | a draft text arrives at the server as a `str`, an interval draft as a `dict` with the same keys and `str` values |
| Wire.TagsAgree | svc/front/src/component/create_table_form.js:6-8 | the table form offers six pairwise different types, the default `string` among them; they, the row form's six tags and the enum's values are the same set, and every offered type is an enum value |
| Wire.NumbersNeverAccepted | svc/server/src/types/type.py:21-29 | every value the row form can send is refused by the integer and real rules |
| Wire.IntegerTextRefused | svc/server/src/types/type.py:21-24 | "42" passes the row form's integer rule but not the server's |
| Wire.BlankStringAccepted | svc/server/src/types/type.py:36-39 | the server accepts every text in a string column; the row form's rule refuses "" |
| Wire.AstralCharDisagrees | svc/server/src/types/type.py:31-34 | a character outside the Basic Multilingual Plane is a char for the server and not for the row form |
| Wire.ReversedIntervalAccepted | svc/server/src/types/dateinvl.py:17-54 | an interval whose start is not before its end fails the row form's rule but is built by the server |

## Left out

- Rendering, `alert`, `console`, Bootstrap markup and `event.preventDefault()` are left
  out. The create-table inputs display `field.name` and `field.type`, which the entries do
  not have (lines 99 and 115 of `create_table_form.js`). This is rendering only and is
  not modelled.
- React's deferred state updates. Each handler reads the state it was rendered with;
  the model applies handlers one after another on the current state.
- The network is left out. A request is the value a handler returns, and its settlement
  is an input.
- Real date parsing, comparison and ISO formatting are parameters (see above). The two
  parsers are independent.
- `RowForm.Spread`: models spreading an object, a string or `undefined`. Spreading
  numbers, arrays or other values is left out; the form never holds them.
- `RowForm.Spread`: splits a string by code point. JavaScript splits it by UTF-16 code
  unit, so `{ ..."\u{1F600}" }` has two keys where the model has one.
- Property keys named `__proto__`, which assignment and spread treat specially, are not
  modelled. The same goes for symbols, getters and prototype properties.
- `TableForm.CreateTableForm.HandleFieldChange`: is modelled for the two keys the inputs
  use (`field_name`, `field_type`), not for an arbitrary property name.
- `TableForm.CreateTableForm.HandleRemoveField`: takes an integer index. A
  non-integer, non-numeric or omitted `splice` start is not modelled; the buttons always
  pass the integer position.
- `TableForm.SubmitRequest`: sends the field values current at submission. Axios
  serialises them when the request is made.
- `EditRow.EditTableRow.constructor`: requires the entries to be different objects, as
  entries decoded from a JSON array are. A parent passing the same object twice is not
  modelled.
- `TableView.NodeText`: React's text for a number is the parameter `showNumber`.
  A plain object as a child makes React throw and becomes None; an array is shown
  element by element. The `key` warnings React prints for arrays are not modelled.
- Python exceptions are simplified:
  - TypeError messages are not modelled.
  - pydantic collects all field errors into one ValidationError; the model keeps only
    the first.
  - An OverflowError from dateutil is the `OverflowError` constructor of `PyError`,
    which `parse` may raise. It is not a ValueError, so both date validators pass it on
    unchanged.
- `DateIntervals.ValidateDate`: is the corrected validator, and `DateIntervals.Construct`
  (and through it the `dateInvl` rule of `FieldTypes`) uses it. The source calls
  `ValidationError(message)`, which raises a TypeError in the pydantic version whose
  `field_validator` and `field_serializer` it imports. So as written, an unparsable end
  makes `DateInterval(**value)` raise that TypeError and not a validation error.
  `DateIntervals.ValidateDateAsWritten` models the code as written (see Findings).
- `Items.ValidateFieldValue`: models the `before` validator only. pydantic's own
  validation of the returned value against `int | str | float | datetime | DateInterval |
  None` is not modelled; it can turn a `bool` into an `int`. The lookup of `field_type`
  in `_info.data` when `field_type` itself failed is not modelled either.
- `Python.Str`: spells out `str` for strings, `None`, booleans, integers and ObjectIds.
  For floats, datetimes, dicts and models it is the parameter `show`.
- Floating point is modelled as `real`.
- JSON `null` and arrays never reach the row form. What the server sends reaches the
  table view and the edit form as `Json`, which includes them.
- The MongoDB and FastAPI layers are not part of this model. Neither are
  `create_database_form.js`, `db_component.js` and `App.js`, nor the records of
  `database.py` and `__init__.py`. `field.py` appears only as the datatype
  `Tables.Field`.

## Findings

| source | as written | input that shows it | evidently intended | confidence | as-written member | corrected member |
|---|---|---|---|---|---|---|
| svc/server/src/types/dateinvl.py:52 | the `except ValueError` branch calls `ValidationError(message)`, which has no constructor taking a message, so a TypeError escapes | `DateInterval(start_date="nonsense", end_date="2024-01-01")`: `parse("nonsense")` raises a ValueError | raise an error pydantic reports as a validation error "nonsense is not matching any formats of date!", as the docstring (lines 40-44) says | high, not executed | DateIntervals.AsWrittenRaisesTypeError | DateIntervals.ValidateDate |
| svc/front/src/component/create_table_row.js:23 | `validateField` switches on `field.type`, but the column records are `{ field_name, field_type }`, so every value is accepted | one `integer` column, untouched form: the submission posts `{field_type:"integer", field_name:"age", field_value:""}` | switch on `field.field_type`, so that invalid values block the submission | high, not executed | RowFormFacts.AsWrittenNothingFails | RowFormFacts.IntendedBlocksIffInvalid |

The form's class `RowForm.AddTableRow` takes the tag source as a parameter.
`TypeProperty` is the code as written. `FieldTypeProperty` is the intended reading,
which the lemmas `RowFormFacts.IntendedBlocksIffInvalid`,
`RowFormFacts.IntendedBlocksUntouchedForm` and `RowFormFacts.IntendedRejectsDefault`
are about.
