/**
 * `Table` (svc/server/src/types/table.py): the column names, the lookup of a column by
 * name, and the normalisation of the `_id`.
 */
module Tables {
  import opened Wrappers
  import opened Python
  import opened FieldTypes

  /** `Field` (svc/server/src/types/field.py): a column definition. */
  datatype Field = Field(field_type: FieldType, field_name: string)

  /** `columns`: the field names in order, duplicates kept (a list, whatever the annotation says). */
  function Columns(table_fields: seq<Field>): (r: seq<string>)
    ensures |r| == |table_fields|
    ensures forall i :: 0 <= i < |table_fields| ==> r[i] == table_fields[i].field_name
  {
    seq(|table_fields|, i requires 0 <= i < |table_fields| => table_fields[i].field_name)
  }

  /** No field before `i` has the name of field `i`. */
  ghost predicate FirstWithName(table_fields: seq<Field>, i: int) {
    0 <= i < |table_fields| && forall j :: 0 <= j < i ==> table_fields[j].field_name != table_fields[i].field_name
  }

  /** `field(name)`: the loop returns the first field with that name, None after the last. */
  function FindField(table_fields: seq<Field>, name: string): (r: Option<Field>)
    ensures r.None? <==> name !in Columns(table_fields)
    ensures r.Some? ==> r.value.field_name == name
    ensures r.Some? ==> exists i :: FirstWithName(table_fields, i) && table_fields[i] == r.value
  {
    if table_fields == [] then None
    else if table_fields[0].field_name == name then
      assert FirstWithName(table_fields, 0);
      Some(table_fields[0])
    else
      var r := FindField(table_fields[1..], name);
      assert Columns(table_fields) == [table_fields[0].field_name] + Columns(table_fields[1..]);
      FirstAfterHead(table_fields, r);
      r
  }

  /** A first match in the tail is a first match in the whole list when the head has another name. */
  lemma FirstAfterHead(table_fields: seq<Field>, r: Option<Field>)
    requires table_fields != []
    requires r.Some? ==> r.value.field_name != table_fields[0].field_name
    requires r.Some? ==> exists i :: FirstWithName(table_fields[1..], i) && table_fields[1..][i] == r.value
    ensures r.Some? ==> exists i :: FirstWithName(table_fields, i) && table_fields[i] == r.value
  {
    if r.Some? {
      var i :| FirstWithName(table_fields[1..], i) && table_fields[1..][i] == r.value;
      forall j | 0 <= j < i + 1 ensures table_fields[j].field_name != table_fields[i + 1].field_name {
        if j > 0 {
          assert table_fields[j] == table_fields[1..][j - 1];
        }
      }
      assert FirstWithName(table_fields, i + 1);
    }
  }

  /** Looking a name up in a table whose names are pairwise different finds the one field with it. */
  lemma FindFieldUnique(table_fields: seq<Field>, i: int)
    requires 0 <= i < |table_fields|
    requires forall j, k :: 0 <= j < k < |table_fields| ==> table_fields[j].field_name != table_fields[k].field_name
    ensures FindField(table_fields, table_fields[i].field_name) == Some(table_fields[i])
  {
    var r := FindField(table_fields, table_fields[i].field_name);
    assert Columns(table_fields)[i] == table_fields[i].field_name;
    var k :| FirstWithName(table_fields, k) && table_fields[k] == r.value;
  }

  /** `_validate_id` and `_serialize_id`: a falsy id becomes None, any other becomes `str(id)`. */
  function NormalizeId(value: PyValue, show: PyValue -> string): (r: Option<string>)
    ensures r.None? <==> !Truthy(value)
    ensures r.Some? ==> r.value == Str(value, show)
  {
    if !Truthy(value) then None else Some(Str(value, show))
  }

  /** What the serialiser receives from the validator. */
  function AsPython(id: Option<string>): PyValue {
    match id
    case None => PyNone
    case Some(s) => PyStr(s)
  }

  /**
   * Serialising a validated id gives the validated id again when `str` of a truthy value
   * is never empty; in particular every ObjectId id survives.
   */
  lemma IdRoundTrip(value: PyValue, show: PyValue -> string)
    requires forall w :: show(w) != ""
    requires value.PyObjectId? ==> value.hex != ""
    ensures NormalizeId(AsPython(NormalizeId(value, show)), show) == NormalizeId(value, show)
  {
    if Truthy(value) {
      StrOfTruthyNonEmpty(value, show);
    }
  }

  /** The falsy ids: `None`, `False`, `0`, `0.0`, `""` and `{}`. */
  lemma FalsyIds(show: PyValue -> string)
    ensures NormalizeId(PyNone, show).None? && NormalizeId(PyBool(false), show).None?
    ensures NormalizeId(PyInt(0), show).None? && NormalizeId(PyFloat(0.0), show).None?
    ensures NormalizeId(PyStr(""), show).None? && NormalizeId(PyDict(map[]), show).None?
    ensures NormalizeId(PyObjectId("65a0"), show) == Some("65a0")
  {
  }
}
