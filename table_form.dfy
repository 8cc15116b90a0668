/**
 * The "create table" form (svc/front/src/component/create_table_form.js): a table
 * name and a list of column entries edited in place, and the guarded submission.
 */
module TableForm {
  import opened Wrappers
  import opened JsText
  import opened Api

  /** The types the column selector offers, in the order it offers them. */
  const FieldTypes: seq<string> := ["string", "char", "integer", "real", "date", "dateInvl"]

  /** The entry a new column starts as. */
  const NewField: Field := Field("", "string")

  /** One column entry `{ field_name, field_type }`: an object the form mutates in place. */
  class FieldEntry {
    var field_name: string
    var field_type: string

    constructor()
      ensures field_name == NewField.field_name && field_type == NewField.field_type
    {
      field_name := "";
      field_type := "string";
    }
  }

  /** The two properties the inputs write. */
  datatype FieldKey = FieldName | FieldType

  /** The values of a list of entries. */
  function Snapshot(es: seq<FieldEntry>): (r: seq<Field>)
    reads set i | 0 <= i < |es| :: es[i]
    ensures |r| == |es|
    ensures forall i :: 0 <= i < |es| ==> r[i] == Field(es[i].field_name, es[i].field_type)
  {
    if es == [] then [] else [Field(es[0].field_name, es[0].field_type)] + Snapshot(es[1..])
  }

  /** The index `splice(index, 1)` starts at: a negative index counts from the end, and both are clamped. */
  function SpliceStart(len: nat, index: int): (start: nat)
    ensures start <= len
    ensures 0 <= index < len ==> start == index
    ensures index < 0 && len + index >= 0 ==> start == len + index
  {
    if index < 0 then (if len + index < 0 then 0 else len + index) else if index < len then index else len
  }

  /** `s` after `splice(index, 1)`. */
  function Splice1<T>(s: seq<T>, index: int): seq<T> {
    var start := SpliceStart(|s|, index);
    if start < |s| then s[..start] + s[start + 1..] else s
  }

  /**
   * Removing at an index in range drops exactly that element, keeping the others in
   * order; an index at or past the end removes nothing.
   */
  lemma SpliceRemovesOne<T>(s: seq<T>, index: int)
    ensures 0 <= index < |s| ==>
      |Splice1(s, index)| == |s| - 1 &&
      (forall j :: 0 <= j < index ==> Splice1(s, index)[j] == s[j]) &&
      (forall j :: index <= j < |s| - 1 ==> Splice1(s, index)[j] == s[j + 1])
    ensures index >= |s| ==> Splice1(s, index) == s
    ensures index < 0 && |s| + index >= 0 ==> Splice1(s, index) == Splice1(s, |s| + index)
    ensures 0 <= index < |s| ==> multiset(Splice1(s, index)) + multiset{s[index]} == multiset(s)
  {
    if 0 <= index < |s| {
      assert s == s[..index] + [s[index]] + s[index + 1..];
    }
  }

  /** Appending an entry appends its value. */
  lemma {:induction false} SnapshotAppend(es: seq<FieldEntry>, e: FieldEntry)
    ensures Snapshot(es + [e]) == Snapshot(es) + [Field(e.field_name, e.field_type)]
  {
    if es != [] {
      SnapshotAppend(es[1..], e);
      assert (es + [e])[1..] == es[1..] + [e];
    }
  }

  /** Removing maps over the values: the values after removal are the old values without that one. */
  lemma SnapshotSplice(es: seq<FieldEntry>, index: int)
    ensures Snapshot(Splice1(es, index)) == Splice1(Snapshot(es), index)
  {
  }

  /** Removing one element keeps the others pairwise different. */
  lemma SpliceKeepsDistinct<T>(s: seq<T>, index: int)
    requires forall i, j :: 0 <= i < j < |s| ==> s[i] != s[j]
    ensures forall i, j :: 0 <= i < j < |Splice1(s, index)| ==> Splice1(s, index)[i] != Splice1(s, index)[j]
  {
    var start := SpliceStart(|s|, index);
    var r := Splice1(s, index);
    if start < |s| {
      forall i, j | 0 <= i < j < |r| ensures r[i] != r[j] {
        var i' := if i < start then i else i + 1;
        var j' := if j < start then j else j + 1;
        assert r[i] == s[i'] && r[j] == s[j'];
      }
    }
  }

  /** The update applied to one entry. */
  function SetKey(f: Field, key: FieldKey, value: string): (r: Field)
    ensures key == FieldName ==> r.field_name == value && r.field_type == f.field_type
    ensures key == FieldType ==> r.field_type == value && r.field_name == f.field_name
  {
    match key
    case FieldName => f.(field_name := value)
    case FieldType => f.(field_type := value)
  }

  /** The request `handleSubmit` sends: POST `/database/table` with `{ database_name, table_name, table_fields }`. */
  datatype TablePost = TablePost(url: string, database_name: string, table_name: string, table_fields: seq<Field>)

  const TableUrl: string := Host + "/database/table"

  /** The guard of `handleSubmit`: a name that trims to "" or an empty column list sends nothing. */
  function SubmitRequest(database_name: string, tableName: string, fields: seq<Field>): (r: Option<TablePost>)
    ensures r.None? <==> AllWhitespace(tableName) || |fields| == 0
    ensures r.Some? ==> r.value == TablePost(TableUrl, database_name, tableName, fields)
  {
    TrimEmptyIff(tableName);
    if Trim(tableName) == "" || |fields| == 0 then None
    else Some(TablePost(TableUrl, database_name, tableName, fields))
  }

  /** `onCreate` runs (when given) exactly on status 200. */
  function CreateCallbacks(response: Response, hasOnCreate: bool): (r: seq<Callback>)
    ensures r == [OnCreate] <==> Succeeded(response) && hasOnCreate
    ensures r == [] <==> !Succeeded(response) || !hasOnCreate
  {
    if Succeeded(response) && hasOnCreate then [OnCreate] else []
  }

  /** `CreateTableForm`: the table name and the list of column entries. */
  class CreateTableForm {
    const database_name: string
    var tableName: string
    var fields: seq<FieldEntry>

    /** The entries are different objects, so a write to one is seen by no other. */
    ghost predicate Valid()
      reads this
    {
      forall i, j :: 0 <= i < j < |fields| ==> fields[i] != fields[j]
    }

    ghost function Contents(): seq<Field>
      reads this, set i | 0 <= i < |fields| :: fields[i]
    {
      Snapshot(fields)
    }

    constructor(database_name: string)
      ensures Valid()
      ensures this.database_name == database_name && tableName == ""
      ensures Contents() == [NewField]
    {
      this.database_name := database_name;
      tableName := "";
      var first := new FieldEntry();
      fields := [first];
    }

    /** The table name input. */
    method SetTableName(value: string)
      modifies this`tableName
      ensures tableName == value
    {
      tableName := value;
    }

    /** `handleAddField`: `[...fields, { field_name: "", field_type: "string" }]` */
    method HandleAddField()
      requires Valid()
      modifies this`fields
      ensures Valid()
      ensures |fields| == |old(fields)| + 1 && fields[..|old(fields)|] == old(fields)
      ensures fresh(fields[|fields| - 1])
      ensures Contents() == old(Contents()) + [NewField]
    {
      ghost var before := Snapshot(fields);
      var added := new FieldEntry();
      assert Snapshot(fields) == before;
      SnapshotAppend(fields, added);
      fields := fields + [added];
      assert Contents() == before + [NewField];
    }

    /** `handleRemoveField(index)`: a copy of the list with `splice(index, 1)` applied. */
    method HandleRemoveField(index: int)
      requires Valid()
      modifies this`fields
      ensures Valid()
      ensures fields == Splice1(old(fields), index)
      ensures Contents() == Splice1(old(Contents()), index)
      ensures |fields| == if index < |old(fields)| && |old(fields)| > 0 then |old(fields)| - 1 else |old(fields)|
      ensures |old(fields)| > 1 ==> |Contents()| > 0
    {
      var updatedFields := fields;
      var start := SpliceStart(|updatedFields|, index);
      if start < |updatedFields| {
        updatedFields := updatedFields[..start] + updatedFields[start + 1..];
      }
      assert updatedFields == Splice1(fields, index);
      SpliceKeepsDistinct(fields, index);
      SnapshotSplice(fields, index);
      fields := updatedFields;
    }

    /**
     * `handleFieldChange(index, key, value)`: writes the property of the entry at
     * `index` itself, in the very object the old list shares; with no entry at
     * `index` the write throws a TypeError and nothing changes.
     */
    method HandleFieldChange(index: int, key: FieldKey, value: string) returns (threw: bool)
      requires Valid()
      modifies this`fields, if 0 <= index < |fields| then {fields[index]} else {}
      ensures Valid() && fields == old(fields)
      ensures threw <==> !(0 <= index < |fields|)
      ensures !threw ==> Contents() == old(Contents())[index := SetKey(old(Contents())[index], key, value)]
      ensures threw ==> Contents() == old(Contents())
    {
      var updatedFields := fields;
      if 0 <= index < |updatedFields| {
        var entry := updatedFields[index];
        match key {
          case FieldName => entry.field_name := value;
          case FieldType => entry.field_type := value;
        }
        threw := false;
      } else {
        threw := true;
      }
      fields := updatedFields;
    }

    /** `handleSubmit`: the guard, then the request built from the current entries. */
    method HandleSubmit() returns (request: Option<TablePost>)
      ensures request == SubmitRequest(database_name, tableName, Contents())
    {
      if Trim(tableName) == "" || |fields| == 0 {
        request := None;
      } else {
        request := Some(TablePost(TableUrl, database_name, tableName, Snapshot(fields)));
      }
    }
  }
}
