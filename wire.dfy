/**
 * What separates the two ends: the type tags both sides use, and what the server's
 * rules make of the values the add-row form sends.
 */
module Wire {
  import opened Wrappers
  import opened Python
  import JsText
  import RowForm
  import RowFormFacts
  import TableForm
  import FieldTypes
  import Items
  import DateIntervals

  /** A draft slot as the server's JSON decoder hands it over. */
  function Decode(v: RowForm.Draft): (r: PyValue)
    ensures v.Text? ==> r == PyStr(v.s)
    ensures v.Obj? ==> r.PyDict? && r.entries.Keys == v.props.Keys && forall k :: k in v.props ==> r.entries[k] == PyStr(v.props[k])
  {
    match v
    case Text(s) => PyStr(s)
    case Obj(m) => PyDict(map k | k in m :: PyStr(m[k]))
  }

  /** The tags the table form offers, the tags the row form checks and the server's values are the same six. */
  lemma TagsAgree()
    ensures (set t | t in TableForm.FieldTypes) == RowForm.KnownTags == FieldTypes.Values()
    ensures forall t :: t in TableForm.FieldTypes ==> FieldTypes.FromValue(t).Some?
    ensures |TableForm.FieldTypes| == 6 && forall i, j :: 0 <= i < j < 6 ==> TableForm.FieldTypes[i] != TableForm.FieldTypes[j]
    ensures TableForm.NewField.field_type in TableForm.FieldTypes
  {
    FieldTypes.ValueRoundTrip(FieldTypes.INTEGER, "");
  }

  /** The row form sends text, so the server refuses every integer and every real it is sent. */
  lemma NumbersNeverAccepted(v: RowForm.Draft, parse: string -> Outcome<DateTime>)
    ensures Items.ValidateFieldValue(FieldTypes.INTEGER, Decode(v), parse) == Raise(ValueError(FieldTypes.BadValues))
    ensures Items.ValidateFieldValue(FieldTypes.REAL, Decode(v), parse) == Raise(ValueError(FieldTypes.BadValues))
  {
  }

  /** Even "42", which the row form's integer rule accepts, is refused by the server's integer rule. */
  lemma IntegerTextRefused(parse: string -> Outcome<DateTime>, dateParse: string -> Option<int>)
    ensures RowForm.ValidateField(Some("integer"), RowForm.Text("42"), dateParse) == ""
    ensures Items.ValidateFieldValue(FieldTypes.INTEGER, Decode(RowForm.Text("42")), parse).Raise?
  {
    RowFormFacts.IntegerScenario(dateParse);
  }

  /** A string column: the server takes every text, blank ones included, which the row form's rule refuses. */
  lemma BlankStringAccepted(s: string, parse: string -> Outcome<DateTime>, dateParse: string -> Option<int>)
    ensures Items.ValidateFieldValue(FieldTypes.STRING, Decode(RowForm.Text(s)), parse) == Ok(PyStr(s))
    ensures s == "" ==> RowForm.ValidateField(Some("string"), RowForm.Text(s), dateParse) == RowForm.MustBeString
  {
  }

  /**
   * A character outside the Basic Multilingual Plane is one code point for the server
   * but two UTF-16 code units for the row form.
   */
  lemma AstralCharDisagrees(parse: string -> Outcome<DateTime>, dateParse: string -> Option<int>)
    ensures Items.ValidateFieldValue(FieldTypes.CHAR, Decode(RowForm.Text("\U{1F600}")), parse).Ok?
    ensures RowForm.ValidateField(Some("char"), RowForm.Text("\U{1F600}"), dateParse) == RowForm.MustBeChar
  {
    JsText.SingleCodeUnit("\U{1F600}");
  }

  /** An interval whose start is not before its end is refused by the row form's rule but built by the server. */
  lemma ReversedIntervalAccepted(a: string, b: string, parse: string -> Outcome<DateTime>, dateParse: string -> Option<int>)
    requires a != "" && b != "" && dateParse(a).Some? && dateParse(b).Some? && dateParse(a).value >= dateParse(b).value
    requires parse(a).Ok? && parse(b).Ok?
    ensures RowForm.ValidateField(Some("dateInvl"), RowForm.Obj(map["start_date" := a, "end_date" := b]), dateParse) == RowForm.StartNotBefore
    ensures Items.ValidateFieldValue(FieldTypes.DATE_INTERVAL, Decode(RowForm.Obj(map["start_date" := a, "end_date" := b])), parse)
      == Ok(PyInterval(Interval(parse(a).value, parse(b).value)))
  {
    var kwargs := Decode(RowForm.Obj(map["start_date" := a, "end_date" := b])).entries;
    assert kwargs[DateIntervals.StartKey] == PyStr(a) && kwargs[DateIntervals.EndKey] == PyStr(b);
  }
}
