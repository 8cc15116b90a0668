/**
 * The table view (svc/front/src/component/table.js): one header cell per column name
 * and, for every row record, one cell per entry of the record, taken by position.
 */
module TableView {
  import opened Wrappers
  import opened Api

  /** One entry of a row record: `{ field_name, field_type, field_value }`. */
  datatype ItemField = ItemField(field_name: string, field_type: string, field_value: Json)

  /** A row record: `{ _id, items }`. */
  datatype TableRow = TableRow(id: Json, items: seq<ItemField>)

  /** What a cell holds: literal text, or an expression child (None for `undefined`). */
  datatype Node = TextNode(text: string) | ValueNode(value: Option<Json>)

  /** A body row: its React key, the record a click passes to `onRowClick`, and its cells. */
  datatype RowView = RowView(key: Json, clicked: TableRow, cells: seq<seq<Node>>)

  datatype View = View(header: seq<string>, body: seq<RowView>)

  /**
   * `v.start_date` and the like, for a value that is not `null`: only an object has
   * such properties; a string, number, boolean or array gives `undefined` (None).
   */
  function Member(v: Json, key: string): Option<Json> {
    match v
    case JObj(m) => if key in m then Some(m[key]) else None
    case _ => None
  }

  /** Reading `start_date` of this entry's value throws: the value of a `dateInvl` entry is `null`. */
  predicate Throws(column: ItemField) {
    column.field_type == "dateInvl" && column.field_value.JNull?
  }

  /** The children of one cell; None when evaluating them throws a TypeError. */
  function CellOf(column: ItemField): (r: Option<seq<Node>>)
    ensures r.None? <==> Throws(column)
    ensures column.field_type == "dateInvl" && r.Some? ==>
      r.value == [ValueNode(Member(column.field_value, "start_date")), TextNode(" "), ValueNode(Member(column.field_value, "end_date"))]
    ensures column.field_type != "dateInvl" ==> r == Some([ValueNode(Some(column.field_value))])
  {
    if column.field_type == "dateInvl" then
      if column.field_value.JNull? then None
      else Some([ValueNode(Member(column.field_value, "start_date")), TextNode(" "), ValueNode(Member(column.field_value, "end_date"))])
    else Some([ValueNode(Some(column.field_value))])
  }

  /** One body row; None when some cell of it throws. */
  function RowOf(tableItem: TableRow): (r: Option<RowView>)
    ensures r.None? <==> exists i :: 0 <= i < |tableItem.items| && Throws(tableItem.items[i])
    ensures r.Some? ==> r.value.key == tableItem.id && r.value.clicked == tableItem && |r.value.cells| == |tableItem.items|
    ensures r.Some? ==> forall i :: 0 <= i < |r.value.cells| ==> CellOf(tableItem.items[i]) == Some(r.value.cells[i])
  {
    if exists i :: 0 <= i < |tableItem.items| && Throws(tableItem.items[i]) then None
    else Some(RowView(tableItem.id, tableItem, seq(|tableItem.items|, i requires 0 <= i < |tableItem.items| => CellOf(tableItem.items[i]).value)))
  }

  /**
   * `Table({ cols, items })`; None when the component function throws, that is when some
   * record has a `null` interval. React's own refusal of an object child is `Displays`.
   */
  function Render(cols: seq<string>, items: seq<TableRow>): (r: Option<View>)
    ensures r.None? <==> exists i, j :: 0 <= i < |items| && 0 <= j < |items[i].items| && Throws(items[i].items[j])
    ensures r.Some? ==> r.value.header == cols
    ensures r.Some? ==> |r.value.body| == |items| && forall i :: 0 <= i < |items| ==> RowOf(items[i]) == Some(r.value.body[i])
  {
    if exists i :: 0 <= i < |items| && RowOf(items[i]).None? then None
    else Some(View(cols, seq(|items|, i requires 0 <= i < |items| => RowOf(items[i]).value)))
  }

  /** The value holds a plain object, at its top or inside some array. */
  predicate HoldsObject(v: Json) {
    match v
    case JObj(_) => true
    case JArr(xs) => exists i :: 0 <= i < |xs| && HoldsObject(xs[i])
    case _ => false
  }

  /** The texts in order, None as soon as one is None. */
  function Concat(ts: seq<Option<string>>): (r: Option<string>)
    ensures r.None? <==> exists i :: 0 <= i < |ts| && ts[i].None?
  {
    if ts == [] then Some("")
    else
      match (ts[0], Concat(ts[1..]))
      case (Some(a), Some(b)) => Some(a + b)
      case _ => None
  }

  /**
   * The text React shows for a child value: strings as they are, numbers through the
   * engine's number formatting `showNumber`, nothing for `null` and booleans, the
   * elements one after another for an array; a plain object is not a valid child
   * (None: rendering throws).
   */
  function JsonText(v: Json, showNumber: real -> string): (r: Option<string>)
    ensures r.None? <==> HoldsObject(v)
    ensures v.JStr? ==> r == Some(v.s)
  {
    match v
    case JStr(s) => Some(s)
    case JNum(x) => Some(showNumber(x))
    case JNull => Some("")
    case JBool(_) => Some("")
    case JObj(_) => None
    case JArr(xs) =>
      var ts := seq(|xs|, i requires 0 <= i < |xs| => JsonText(xs[i], showNumber));
      assert forall i :: 0 <= i < |xs| ==> (ts[i].None? <==> HoldsObject(xs[i]));
      Concat(ts)
  }

  /** The text of one child node: literal text, nothing for `undefined`, otherwise the value's text. */
  function NodeText(n: Node, showNumber: real -> string): (r: Option<string>)
    ensures r.None? <==> n.ValueNode? && n.value.Some? && HoldsObject(n.value.value)
    ensures n.TextNode? ==> r == Some(n.text)
    ensures n == ValueNode(None) ==> r == Some("")
  {
    match n
    case TextNode(s) => Some(s)
    case ValueNode(None) => Some("")
    case ValueNode(Some(v)) => JsonText(v, showNumber)
  }

  /** The text of a cell's children, None when React refuses one of them. */
  function CellText(nodes: seq<Node>, showNumber: real -> string): (r: Option<string>)
    ensures r.None? <==> exists i :: 0 <= i < |nodes| && nodes[i].ValueNode? && nodes[i].value.Some? && HoldsObject(nodes[i].value.value)
  {
    var ts := seq(|nodes|, i requires 0 <= i < |nodes| => NodeText(nodes[i], showNumber));
    assert forall i :: 0 <= i < |nodes| ==> (ts[i].None? <==> nodes[i].ValueNode? && nodes[i].value.Some? && HoldsObject(nodes[i].value.value));
    Concat(ts)
  }

  /** Property `key` of an interval value is present and holds a plain object. */
  predicate EndHoldsObject(v: Json, key: string) {
    Member(v, key).Some? && HoldsObject(Member(v, key).value)
  }

  /**
   * Showing this entry fails: a `null` interval (the component throws), an interval end
   * that holds an object, or any other value that holds an object (React throws).
   */
  predicate CellFails(column: ItemField) {
    if column.field_type == "dateInvl" then
      column.field_value.JNull? || EndHoldsObject(column.field_value, "start_date") || EndHoldsObject(column.field_value, "end_date")
    else HoldsObject(column.field_value)
  }

  /** The page shows: `Table` returns its elements and React accepts every child of every cell. */
  predicate Displays(cols: seq<string>, items: seq<TableRow>, showNumber: real -> string) {
    var view := Render(cols, items);
    view.Some? &&
    forall i, j :: 0 <= i < |items| && 0 <= j < |items[i].items| ==>
      CellText(view.value.body[i].cells[j], showNumber).Some?
  }

  /** One cell fails exactly when its component part throws or React refuses one of its children. */
  lemma CellFailsIff(column: ItemField, showNumber: real -> string)
    ensures CellFails(column) <==> CellOf(column).None? || CellText(CellOf(column).value, showNumber).None?
  {
    if CellOf(column).Some? {
      var nodes := CellOf(column).value;
      if column.field_type == "dateInvl" {
        assert nodes[0] == ValueNode(Member(column.field_value, "start_date"));
        assert nodes[2] == ValueNode(Member(column.field_value, "end_date"));
      } else {
        assert nodes[0] == ValueNode(Some(column.field_value));
      }
    }
  }

  /** The page shows exactly when no entry of any record fails, whatever `cols` and the number formatting are. */
  lemma DisplaysIff(cols: seq<string>, items: seq<TableRow>, showNumber: real -> string)
    ensures Displays(cols, items, showNumber) <==>
      forall i, j :: 0 <= i < |items| && 0 <= j < |items[i].items| ==> !CellFails(items[i].items[j])
  {
    forall i, j | 0 <= i < |items| && 0 <= j < |items[i].items| {
      CellFailsIff(items[i].items[j], showNumber);
    }
    if !Displays(cols, items, showNumber) && Render(cols, items).Some? {
      var i, j :| 0 <= i < |items| && 0 <= j < |items[i].items| &&
        CellText(Render(cols, items).value.body[i].cells[j], showNumber).None?;
      assert CellOf(items[i].items[j]) == Some(Render(cols, items).value.body[i].cells[j]);
    }
  }

  /** A plain object in a string column: `Table` returns, but React refuses the child. */
  lemma ObjectValueFails(cols: seq<string>, id: Json, name: string, m: map<string, Json>, showNumber: real -> string)
    ensures Render(cols, [TableRow(id, [ItemField(name, "string", JObj(m))])]).Some?
    ensures !Displays(cols, [TableRow(id, [ItemField(name, "string", JObj(m))])], showNumber)
  {
    var items := [TableRow(id, [ItemField(name, "string", JObj(m))])];
    assert !Throws(items[0].items[0]);
    DisplaysIff(cols, items, showNumber);
    assert CellFails(items[0].items[0]);
  }

  /** A `dateInvl` cell of two string ends shows the start, one space and the end. */
  lemma IntervalCellText(start: string, end: string, others: map<string, Json>, name: string, showNumber: real -> string)
    ensures var value := JObj(others["start_date" := JStr(start)]["end_date" := JStr(end)]);
      CellOf(ItemField(name, "dateInvl", value)).Some? &&
      CellText(CellOf(ItemField(name, "dateInvl", value)).value, showNumber) == Some(start + " " + end)
  {
    var value := JObj(others["start_date" := JStr(start)]["end_date" := JStr(end)]);
    var nodes := CellOf(ItemField(name, "dateInvl", value)).value;
    assert nodes == [ValueNode(Some(JStr(start))), TextNode(" "), ValueNode(Some(JStr(end)))];
    var ts := seq(|nodes|, i requires 0 <= i < |nodes| => NodeText(nodes[i], showNumber));
    assert ts == [Some(start), Some(" "), Some(end)];
    assert ts[1..][1..][1..] == [];
    assert Concat(ts[1..][1..]) == Some(end + "");
    assert end + "" == end;
    assert Concat(ts[1..]) == Some(" " + end);
    assert start + (" " + end) == start + " " + end;
  }

  /** Any other cell of a string value shows the value unchanged. */
  lemma ValueCellText(column: ItemField, showNumber: real -> string)
    requires column.field_type != "dateInvl" && column.field_value.JStr?
    ensures CellOf(column).Some? && CellText(CellOf(column).value, showNumber) == Some(column.field_value.s)
  {
    var ts := seq(1, i requires 0 <= i < 1 => NodeText(CellOf(column).value[i], showNumber));
    assert ts == [Some(column.field_value.s)];
    assert ts[1..] == [];
    assert Concat(ts[1..]) == Some("");
    assert column.field_value.s + "" == column.field_value.s;
  }

  /** An array value is shown element after element. */
  lemma ArrayCellText(column: ItemField, a: string, b: string, showNumber: real -> string)
    requires column.field_type != "dateInvl" && column.field_value == JArr([JStr(a), JNull, JStr(b)])
    ensures CellOf(column).Some? && CellText(CellOf(column).value, showNumber) == Some(a + b)
  {
    var xs := [JStr(a), JNull, JStr(b)];
    var ts := seq(|xs|, i requires 0 <= i < |xs| => JsonText(xs[i], showNumber));
    assert ts == [Some(a), Some(""), Some(b)];
    assert ts[1..][1..][1..] == [];
    assert Concat(ts[1..][1..][1..]) == Some("");
    assert Concat(ts[1..][1..]) == Some(b + "");
    assert Concat(ts[1..]) == Some("" + (b + ""));
    assert a + ("" + (b + "")) == a + b;
    assert JsonText(column.field_value, showNumber) == Concat(ts);
    var cs := seq(1, i requires 0 <= i < 1 => NodeText(CellOf(column).value[i], showNumber));
    assert cs == [Some(a + b)] && cs[1..] == [];
    assert Concat(cs[1..]) == Some("");
    assert a + b + "" == a + b;
  }

  /** The body never looks at `cols`: whether rendering throws and the cells come from each record alone. */
  lemma BodyIgnoresColumns(cols1: seq<string>, cols2: seq<string>, items: seq<TableRow>)
    ensures Render(cols1, items).Some? <==> Render(cols2, items).Some?
    ensures Render(cols1, items).Some? ==> Render(cols1, items).value.body == Render(cols2, items).value.body
  {
  }

  /** Header and cells are not aligned: one named column and a record of two entries give two cells under one header. */
  lemma MisalignedRow()
    ensures var view := Render(["age"], [TableRow(JStr("x"), [ItemField("name", "string", JStr("a")), ItemField("age", "integer", JNum(3.0))])]);
      view.Some? && |view.value.header| == 1 && |view.value.body[0].cells| == 2 && view.value.body[0].cells[0] == [ValueNode(Some(JStr("a")))]
  {
    var items := [TableRow(JStr("x"), [ItemField("name", "string", JStr("a")), ItemField("age", "integer", JNum(3.0))])];
    assert !Throws(items[0].items[0]) && !Throws(items[0].items[1]);
  }

  /** One record with a `null` interval value makes the whole table throw, whatever the other records hold. */
  lemma NullIntervalThrows(cols: seq<string>, before: seq<TableRow>, id: Json, name: string, after: seq<TableRow>)
    ensures Render(cols, before + [TableRow(id, [ItemField(name, "dateInvl", JNull)])] + after).None?
  {
    var items := before + [TableRow(id, [ItemField(name, "dateInvl", JNull)])] + after;
    assert Throws(items[|before|].items[0]);
  }
}
