/**
 * The "edit row" form (svc/front/src/component/edit_table_row.js): the row's entries
 * edited in place, the submitting flag, and the request it sends.
 */
module EditRow {
  import opened Wrappers
  import opened Api

  /** One entry of a row as it came from the server: an object shared with the parent's row record. */
  class ItemEntry {
    var field_name: string
    var field_type: string
    var field_value: Json

    constructor(field_name: string, field_type: string, field_value: Json)
      ensures this.field_name == field_name && this.field_type == field_type && this.field_value == field_value
    {
      this.field_name := field_name;
      this.field_type := field_type;
      this.field_value := field_value;
    }
  }

  /** The value of one entry. */
  datatype ItemValue = ItemValue(field_name: string, field_type: string, field_value: Json)

  function Snapshot(es: seq<ItemEntry>): (r: seq<ItemValue>)
    reads set i | 0 <= i < |es| :: es[i]
    ensures |r| == |es|
    ensures forall i :: 0 <= i < |es| ==> r[i] == ItemValue(es[i].field_name, es[i].field_type, es[i].field_value)
  {
    if es == [] then [] else [ItemValue(es[0].field_name, es[0].field_type, es[0].field_value)] + Snapshot(es[1..])
  }

  /** A request: its URL and its body, if any. */
  datatype PostRequest = PostRequest(url: string, body: Option<Json>)

  function UpdateUrl(database_name: string, table_name: string, item_id: string): string {
    Host + "/database/" + database_name + "/table/" + table_name + "/item/" + item_id
  }

  /** `.then`: on status 200 `onUpdate` (if given) and then `onClose`; any other outcome calls neither. */
  function UpdateCallbacks(response: Response, hasOnUpdate: bool): (r: seq<Callback>)
    ensures r != [] <==> Succeeded(response)
    ensures Succeeded(response) ==> r[|r| - 1] == OnClose
    ensures OnUpdate in r <==> Succeeded(response) && hasOnUpdate
  {
    if Succeeded(response) then (if hasOnUpdate then [OnUpdate] else []) + [OnClose] else []
  }

  /** `EditTableRow`: the row's entries, which are the parent's own objects, and the submitting flag. */
  class EditTableRow {
    const database_name: string
    const table_name: string
    const item_id: string
    /** `item.items` as the parent passed it. */
    const items: seq<ItemEntry>
    var rowData: seq<ItemEntry>
    var isSubmitting: bool

    /**
     * The list is copied on every edit, but its elements stay the parent's objects;
     * entries decoded from a JSON array are different objects.
     */
    ghost predicate Valid()
      reads this
    {
      rowData == items && forall i, j :: 0 <= i < j < |items| ==> items[i] != items[j]
    }

    ghost function Contents(): seq<ItemValue>
      reads this, set i | 0 <= i < |rowData| :: rowData[i]
    {
      Snapshot(rowData)
    }

    constructor(database_name: string, table_name: string, item_id: string, items: seq<ItemEntry>)
      requires forall i, j :: 0 <= i < j < |items| ==> items[i] != items[j]
      ensures Valid() && !isSubmitting
      ensures this.database_name == database_name && this.table_name == table_name && this.item_id == item_id
      ensures this.items == items && rowData == items
    {
      this.database_name := database_name;
      this.table_name := table_name;
      this.item_id := item_id;
      this.items := items;
      rowData := items;
      isSubmitting := false;
    }

    /**
     * `handleInputChange(idx, value)`: writes `field_value` of the entry at `idx` itself,
     * which the parent's row record shares; with no entry at `idx` the write throws a
     * TypeError and nothing changes.
     */
    method HandleInputChange(idx: int, value: string) returns (threw: bool)
      requires Valid()
      modifies this`rowData, if 0 <= idx < |rowData| then {rowData[idx]} else {}
      ensures Valid() && rowData == old(rowData)
      ensures threw <==> !(0 <= idx < |rowData|)
      ensures !threw ==> Contents() == old(Contents())[idx := old(Contents())[idx].(field_value := JStr(value))]
      ensures !threw ==> items[idx].field_value == JStr(value)
      ensures threw ==> Contents() == old(Contents())
    {
      var newRowData := rowData;
      if 0 <= idx < |newRowData| {
        newRowData[idx].field_value := JStr(value);
        threw := false;
      } else {
        threw := true;
      }
      rowData := newRowData;
    }

    /** `handleSubmit`: raises the flag and posts to the item's URL with no body. */
    method HandleSubmit() returns (request: PostRequest)
      modifies this`isSubmitting
      ensures isSubmitting
      ensures request == PostRequest(UpdateUrl(database_name, table_name, item_id), None)
    {
      isSubmitting := true;
      request := PostRequest(UpdateUrl(database_name, table_name, item_id), None);
    }

    /** The request settles: the callbacks of `.then`, then `.finally` lowers the flag. */
    method Settle(response: Response, hasOnUpdate: bool) returns (callbacks: seq<Callback>)
      modifies this`isSubmitting
      ensures !isSubmitting
      ensures callbacks == UpdateCallbacks(response, hasOnUpdate)
    {
      if response == Status(200) {
        callbacks := (if hasOnUpdate then [OnUpdate] else []) + [OnClose];
      } else {
        callbacks := [];
      }
      isSubmitting := false;
    }
  }
}
