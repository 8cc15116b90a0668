/**
 * `TableItemField` and `TableItem` (svc/server/src/types/item.py): the value of one
 * cell is validated against the column's type unless it already is a `datetime`, and
 * serialised back with `datetime`s as ISO strings.
 */
module Items {
  import opened Python
  import opened FieldTypes

  /** `validate_field_value`: a `datetime` passes whatever the type; anything else goes to `field_type.validate`. */
  function ValidateFieldValue(field_type: FieldType, value: PyValue, parse: string -> Outcome<DateTime>): (r: Outcome<PyValue>)
    ensures value.PyDateTime? ==> r == Ok(value)
    ensures !value.PyDateTime? ==> r == Rule(field_type, value, parse)
  {
    DispatchIsTotal(field_type, value, parse);
    if value.PyDateTime? then Ok(value) else Validate(field_type, value, parse)
  }

  /** `_serialize_field_value`: a `datetime` becomes `value.isoformat()`, anything else is returned as it is. */
  function SerializeFieldValue(value: PyValue, isoformat: DateTime -> string): (r: PyValue)
    ensures value.PyDateTime? ==> r == PyStr(isoformat(value.d))
    ensures !value.PyDateTime? ==> r == value
  {
    if value.PyDateTime? then PyStr(isoformat(value.d)) else value
  }

  /** `TableItem._validate_id`: `str(value)`, so an explicit `None` becomes the string "None". */
  function ItemId(value: PyValue, show: PyValue -> string): (r: string)
    ensures value.PyStr? ==> r == value.s
    ensures value.PyObjectId? ==> r == value.hex
    ensures value.PyNone? ==> r == "None"
  {
    Str(value, show)
  }

  /** A column of type `date` keeps a `datetime` and refuses an `int`; any type keeps a `datetime`. */
  lemma DateTimePassesEveryType(t: FieldType, d: DateTime, parse: string -> Outcome<DateTime>)
    ensures ValidateFieldValue(t, PyDateTime(d), parse) == Ok(PyDateTime(d))
    ensures ValidateFieldValue(INTEGER, PyDateTime(d), parse).Ok?
  {
  }

  /** Every value a cell validator keeps serialises to a JSON-representable value: no `datetime` is left. */
  lemma SerializedHasNoDateTime(value: PyValue, isoformat: DateTime -> string)
    ensures !SerializeFieldValue(value, isoformat).PyDateTime?
  {
  }

  /** A `date` cell read back from its serialised form is the same `datetime` when `parse` inverts `isoformat`. */
  lemma DateCellRoundTrip(d: DateTime, isoformat: DateTime -> string, parse: string -> Outcome<DateTime>)
    requires parse(isoformat(d)) == Ok(d)
    ensures ValidateFieldValue(DATE, SerializeFieldValue(PyDateTime(d), isoformat), parse) == Ok(PyDateTime(d))
  {
  }

  /** The rules of the scalar types keep what they accept, so serialising them changes nothing. */
  lemma ScalarCellRoundTrip(t: FieldType, value: PyValue, isoformat: DateTime -> string, parse: string -> Outcome<DateTime>)
    requires t in {INTEGER, REAL, CHAR, STRING} && !value.PyDateTime?
    requires ValidateFieldValue(t, value, parse).Ok?
    ensures SerializeFieldValue(ValidateFieldValue(t, value, parse).value, isoformat) == value
    ensures ValidateFieldValue(t, SerializeFieldValue(ValidateFieldValue(t, value, parse).value, isoformat), parse)
      == ValidateFieldValue(t, value, parse)
  {
  }
}
