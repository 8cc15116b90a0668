/**
 * The "add row" form (svc/front/src/component/create_table_row.js): a draft record
 * with one slot per field name, the per-type validation rules of `validateField`,
 * the merge of one input into the draft, and the validation, payload and outcome
 * of a submission.
 */
module RowForm {
  import opened Wrappers
  import opened Decimal
  import opened JsText
  import opened JsObjects
  import opened Api

  /** What a slot of the draft holds: an input's text, or an object such as `{ start_date, end_date }`. */
  datatype Draft = Text(s: string) | Obj(props: map<string, string>)

  /** The draft a `dateInvl` field starts with. */
  const EmptyInterval: Draft := Obj(map["start_date" := "", "end_date" := ""])

  function DefaultDraft(field_type: string): Draft {
    if field_type == "dateInvl" then EmptyInterval else Text("")
  }

  // ---------------------------------------------------------------------------
  // validateField

  /**
   * Which property of the field record `validateField` reads as its type tag.
   * The component destructures `type` (TypeProperty), a key the records
   * `{ field_name, field_type }` it is given never have; FieldTypeProperty is the
   * property the rest of the component reads.
   */
  datatype TagSource = TypeProperty | FieldTypeProperty

  /** The tag the switch sees, None standing for `undefined`. */
  function TagOf(source: TagSource, f: Field): Option<string> {
    match source
    case TypeProperty => None
    case FieldTypeProperty => Some(f.field_type)
  }

  /** `String(v)`, as `RegExp.prototype.test` and `Date.parse` convert their argument. */
  function ToJsString(v: Draft): string {
    match v
    case Text(s) => s
    case Obj(_) => "[object Object]"
  }

  /** `v.start_date`, `v.end_date`: a string primitive has neither property. */
  function Prop(v: Draft, key: string): Option<string> {
    match v
    case Text(_) => None
    case Obj(m) => if key in m then Some(m[key]) else None
  }

  /** `!d || isNaN(Date.parse(d))` for a destructured interval end. */
  predicate BadDate(d: Option<string>, dateParse: string -> Option<int>) {
    d.None? || d.value == "" || dateParse(d.value).None?
  }

  const MustBeInteger: string := "Must be an integer."
  const MustBeString: string := "Must be a string."
  const MustBeChar: string := "Must be a single character."
  const MustBeReal: string := "Must be a real number."
  const MustBeDate: string := "Must be a valid date."
  const StartInvalid: string := "Start date must be valid."
  const EndInvalid: string := "End date must be valid."
  const StartNotBefore: string := "Start date must be before end date."

  /**
   * `validateField`: the error message for `value` under the type tag `tag`, "" when
   * there is none.  `dateParse` is `Date.parse` (None for NaN, otherwise the time
   * value in milliseconds); `new Date(s)` parses `s` the same way.
   */
  function ValidateField(tag: Option<string>, value: Draft, dateParse: string -> Option<int>): (r: string)
    ensures r in Messages || r == ""
    ensures tag.None? || tag.value !in KnownTags ==> r == ""
    ensures tag == Some("dateInvl") && r == "" ==>
      var start, end := Prop(value, "start_date"), Prop(value, "end_date");
      !BadDate(start, dateParse) && !BadDate(end, dateParse) && dateParse(start.value).value < dateParse(end.value).value
  {
    if tag == Some("integer") then
      if MatchesInteger(ToJsString(value)) then "" else MustBeInteger
    else if tag == Some("string") then
      if !value.Text? || Trim(value.s) == "" then MustBeString else ""
    else if tag == Some("char") then
      if !value.Text? || Utf16Length(value.s) != 1 then MustBeChar else ""
    else if tag == Some("real") then
      if MatchesReal(ToJsString(value)) then "" else MustBeReal
    else if tag == Some("date") then
      if dateParse(ToJsString(value)).None? then MustBeDate else ""
    else if tag == Some("dateInvl") then
      var start, end := Prop(value, "start_date"), Prop(value, "end_date");
      if BadDate(start, dateParse) then StartInvalid
      else if BadDate(end, dateParse) then EndInvalid
      else if dateParse(start.value).value >= dateParse(end.value).value then StartNotBefore
      else ""
    else ""
  }

  /** The messages the switch can produce. */
  const Messages: set<string> := {MustBeInteger, MustBeString, MustBeChar, MustBeReal, MustBeDate, StartInvalid, EndInvalid, StartNotBefore}

  /** The six tags the switch knows. */
  const KnownTags: set<string> := {"integer", "string", "char", "real", "date", "dateInvl"}

  // ---------------------------------------------------------------------------
  // The initial draft

  /** The draft the `forEach` of the state initialiser builds from the first `|fields|` fields. */
  function InitialDraft(fields: seq<Field>): JsObject<Draft> {
    if fields == [] then Empty()
    else
      var f := fields[|fields| - 1];
      Put(InitialDraft(fields[..|fields| - 1]), f.field_name, DefaultDraft(f.field_type))
  }

  /** `fields.forEach(field => initialState[field.field_name] = default)` */
  method BuildRowData(fields: seq<Field>) returns (initialState: JsObject<Draft>)
    ensures initialState == InitialDraft(fields)
  {
    initialState := Empty();
    var i := 0;
    while i < |fields|
      invariant 0 <= i <= |fields|
      invariant initialState == InitialDraft(fields[..i])
    {
      var field := fields[i];
      if field.field_type == "dateInvl" {
        initialState := Put(initialState, field.field_name, EmptyInterval);
      } else {
        initialState := Put(initialState, field.field_name, Text(""));
      }
      assert fields[..i + 1][..i] == fields[..i];
      i := i + 1;
    }
    assert fields[..|fields|] == fields;
  }

  /** The names in order of first appearance: each repeated name is kept where it first occurs. */
  function FirstNames(names: seq<string>): seq<string> {
    if names == [] then []
    else
      var p := names[..|names| - 1];
      FirstNames(p) + (if names[|names| - 1] in p then [] else [names[|names| - 1]])
  }

  /** Field `i` is the last one with its name. */
  ghost predicate LastWithName(fields: seq<Field>, i: int) {
    0 <= i < |fields| && forall j :: i < j < |fields| ==> fields[j].field_name != fields[i].field_name
  }

  /** Every field has a slot. */
  predicate SlotsFor(fields: seq<Field>, rowData: JsObject<Draft>) {
    forall i :: 0 <= i < |fields| ==> fields[i].field_name in rowData.vals
  }

  /**
   * The initial draft has exactly one slot per distinct field name, created in order of
   * first appearance.
   */
  lemma {:induction false} InitialDraftKeys(fields: seq<Field>)
    ensures WellFormed(InitialDraft(fields))
    ensures InitialDraft(fields).keys == FirstNames(Names(fields))
    ensures forall k :: k in InitialDraft(fields).vals <==> k in Names(fields)
  {
    if fields != [] {
      var n := |fields| - 1;
      var p := fields[..n];
      InitialDraftKeys(p);
      var names := Names(fields);
      assert names[..n] == Names(p);
      assert names == Names(p) + [fields[n].field_name];
    }
  }

  /** Every field has a slot in the initial draft. */
  lemma InitialDraftSlots(fields: seq<Field>)
    ensures WellFormed(InitialDraft(fields)) && SlotsFor(fields, InitialDraft(fields))
  {
    InitialDraftKeys(fields);
    forall i | 0 <= i < |fields| ensures fields[i].field_name in InitialDraft(fields).vals {
      assert Names(fields)[i] == fields[i].field_name;
    }
  }

  /** A slot of the initial draft holds the default of the LAST field with that name. */
  lemma {:induction false} InitialDraftValues(fields: seq<Field>)
    ensures forall i :: LastWithName(fields, i) ==>
      fields[i].field_name in InitialDraft(fields).vals &&
      InitialDraft(fields).vals[fields[i].field_name] == DefaultDraft(fields[i].field_type)
  {
    if fields != [] {
      var n := |fields| - 1;
      var p := fields[..n];
      InitialDraftValues(p);
      forall i | LastWithName(fields, i)
        ensures fields[i].field_name in InitialDraft(fields).vals &&
          InitialDraft(fields).vals[fields[i].field_name] == DefaultDraft(fields[i].field_type)
      {
        if i < n {
          assert p[i] == fields[i];
          assert LastWithName(p, i);
          assert fields[n].field_name != fields[i].field_name;
        }
      }
    }
  }

  /** With pairwise different names the slots are created in field order. */
  lemma {:induction false} FirstNamesOfDistinct(names: seq<string>)
    requires Distinct(names)
    ensures FirstNames(names) == names
  {
    if names != [] {
      var p := names[..|names| - 1];
      FirstNamesOfDistinct(p);
      assert names[|names| - 1] !in p by {
        forall j | 0 <= j < |p| ensures p[j] != names[|names| - 1] {
          assert p[j] == names[j];
        }
      }
      assert p + [names[|names| - 1]] == names;
    }
  }

  // ---------------------------------------------------------------------------
  // handleInputChange

  /**
   * The own enumerable properties `{ ...v }` copies: an object's properties, a string's
   * characters under their indices, nothing for `undefined`.
   */
  function Spread(v: Option<Draft>): (r: map<string, string>)
    ensures v.None? ==> r == map[]
    ensures v.Some? && v.value.Obj? ==> r == v.value.props
    ensures v.Some? && v.value.Text? ==>
      (forall i :: 0 <= i < |v.value.s| ==> NatToDecimal(i) in r && r[NatToDecimal(i)] == [v.value.s[i]]) &&
      (forall k :: k in r ==> AllDigits(k)) && "start_date" !in r && "end_date" !in r
  {
    match v
    case None => map[]
    case Some(Obj(m)) => m
    case Some(Text(s)) =>
      var ks := set i: nat | i < |s| :: NatToDecimal(i);
      assert forall k :: k in ks ==> AllDigits(k) && DecimalValue(k) < |s| && k == NatToDecimal(DecimalValue(k)) by {
        forall k | k in ks ensures AllDigits(k) && DecimalValue(k) < |s| && k == NatToDecimal(DecimalValue(k)) {
          var i: nat :| i < |s| && NatToDecimal(i) == k;
          DecimalRoundTrip(i);
        }
      }
      forall i | 0 <= i < |s| ensures NatToDecimal(i) in ks && DecimalValue(NatToDecimal(i)) == i {
        DecimalRoundTrip(i);
      }
      assert !IsDigit("start_date"[0]) && !IsDigit("end_date"[0]);
      map k | k in ks :: [s[DecimalValue(k)]]
  }

  /**
   * The new slot for `field`: a `dateInvl` slot becomes `{ ...current, ...value }`,
   * any other slot becomes `value`.
   */
  function NewSlot(current: Option<Draft>, field: Field, value: Draft): Draft {
    if field.field_type == "dateInvl" then Obj(Spread(current) + Spread(Some(value))) else value
  }

  /** The draft after `handleInputChange(field, value)`: a copy with one slot replaced. */
  function InputChanged(rowData: JsObject<Draft>, field: Field, value: Draft): (r: JsObject<Draft>)
    ensures r.vals == rowData.vals[field.field_name := NewSlot(Get(rowData, field.field_name), field, value)]
    ensures WellFormed(rowData) ==> WellFormed(r)
  {
    var copy := Copy(rowData);
    Put(copy, field.field_name, NewSlot(Get(copy, field.field_name), field, value))
  }

  /**
   * An input changes the edited field's slot and no other, and (when the field already
   * has a slot) the enumeration order stays as it was.
   */
  lemma InputChangeIsLocal(rowData: JsObject<Draft>, field: Field, value: Draft)
    requires WellFormed(rowData)
    ensures WellFormed(InputChanged(rowData, field, value))
    ensures Get(InputChanged(rowData, field, value), field.field_name)
      == Some(NewSlot(Get(rowData, field.field_name), field, value))
    ensures forall k :: k != field.field_name ==> Get(InputChanged(rowData, field, value), k) == Get(rowData, k)
    ensures field.field_name in rowData.vals ==> OwnKeys(InputChanged(rowData, field, value)) == OwnKeys(rowData)
  {
    CopyKeepsOrder(rowData);
  }

  /** Editing one end of an interval keeps the other end. */
  lemma IntervalEditKeepsOtherEnd(m: map<string, string>, key: string, x: string, other: string)
    requires key in {"start_date", "end_date"} && other in {"start_date", "end_date"} && key != other
    requires other in m
    ensures NewSlot(Some(Obj(m)), Field("", "dateInvl"), Obj(map[key := x])) == Obj(m[key := x])
    ensures Prop(NewSlot(Some(Obj(m)), Field("", "dateInvl"), Obj(map[key := x])), other) == Some(m[other])
    ensures Prop(NewSlot(Some(Obj(m)), Field("", "dateInvl"), Obj(map[key := x])), key) == Some(x)
  {
    assert m + map[key := x] == m[key := x];
  }

  // ---------------------------------------------------------------------------
  // handleSubmit

  function FieldError(f: Field, rowData: JsObject<Draft>, tags: TagSource, dateParse: string -> Option<int>): string
    requires f.field_name in rowData.vals
  {
    ValidateField(TagOf(tags, f), rowData.vals[f.field_name], dateParse)
  }

  /**
   * `const newErrors = {}` followed by `if (error) newErrors[name] = error` for each name
   * paired with its error, in order.
   */
  function Collect(names: seq<string>, errs: seq<string>): map<string, string>
    requires |names| == |errs|
  {
    if names == [] then map[]
    else
      var n := |names| - 1;
      var prev := Collect(names[..n], errs[..n]);
      if errs[n] != "" then prev[names[n] := errs[n]] else prev
  }

  /** A name is collected exactly when it is paired with a non-empty error somewhere. */
  lemma {:induction false} CollectKey(names: seq<string>, errs: seq<string>, k: string)
    requires |names| == |errs|
    ensures k in Collect(names, errs) <==> exists i :: 0 <= i < |names| && errs[i] != "" && names[i] == k
  {
    if names != [] {
      var n := |names| - 1;
      CollectKey(names[..n], errs[..n], k);
      if exists i :: 0 <= i < n && errs[..n][i] != "" && names[..n][i] == k {
        var i :| 0 <= i < n && errs[..n][i] != "" && names[..n][i] == k;
        assert errs[i] != "" && names[i] == k;
      }
      if exists i :: 0 <= i < |names| && errs[i] != "" && names[i] == k {
        var i :| 0 <= i < |names| && errs[i] != "" && names[i] == k;
        if i < n {
          assert errs[..n][i] != "" && names[..n][i] == k;
        }
      }
    }
  }

  /** The last non-empty error paired with a name is the one collected for it. */
  lemma {:induction false} CollectValue(names: seq<string>, errs: seq<string>, i: int)
    requires |names| == |errs| && 0 <= i < |names| && errs[i] != ""
    requires forall j :: i < j < |names| && names[j] == names[i] ==> errs[j] == ""
    ensures names[i] in Collect(names, errs) && Collect(names, errs)[names[i]] == errs[i]
  {
    var n := |names| - 1;
    if i < n {
      assert names[..n][i] == names[i] && errs[..n][i] == errs[i];
      forall j | i < j < n && names[..n][j] == names[..n][i]
        ensures errs[..n][j] == ""
      {
        assert names[..n][j] == names[j] && errs[..n][j] == errs[j];
      }
      CollectValue(names[..n], errs[..n], i);
    }
  }

  /** One more step of the `forEach`. */
  lemma CollectStep(names: seq<string>, errs: seq<string>, i: int)
    requires |names| == |errs| && 0 <= i < |names|
    ensures Collect(names[..i + 1], errs[..i + 1]) ==
      if errs[i] != "" then Collect(names[..i], errs[..i])[names[i] := errs[i]] else Collect(names[..i], errs[..i])
  {
    assert names[..i + 1][..i] == names[..i] && errs[..i + 1][..i] == errs[..i];
  }

  /** The error of each field, in field order. */
  function FieldErrors(fields: seq<Field>, rowData: JsObject<Draft>, tags: TagSource, dateParse: string -> Option<int>): (r: seq<string>)
    requires SlotsFor(fields, rowData)
    ensures |r| == |fields|
    ensures forall i :: 0 <= i < |fields| ==> r[i] == FieldError(fields[i], rowData, tags, dateParse)
  {
    seq(|fields|, i requires 0 <= i < |fields| => FieldError(fields[i], rowData, tags, dateParse))
  }

  /** The `newErrors` the `forEach` of `handleSubmit` collects over the given fields. */
  function SubmitErrors(fields: seq<Field>, rowData: JsObject<Draft>, tags: TagSource, dateParse: string -> Option<int>): map<string, string>
    requires SlotsFor(fields, rowData)
  {
    Collect(Names(fields), FieldErrors(fields, rowData, tags, dateParse))
  }

  /** Fills `newErrors` as `handleSubmit` does. */
  method CollectErrors(fields: seq<Field>, rowData: JsObject<Draft>, tags: TagSource, dateParse: string -> Option<int>)
    returns (newErrors: map<string, string>)
    requires SlotsFor(fields, rowData)
    ensures newErrors == SubmitErrors(fields, rowData, tags, dateParse)
  {
    ghost var names := Names(fields);
    ghost var errs := FieldErrors(fields, rowData, tags, dateParse);
    newErrors := map[];
    var i := 0;
    while i < |fields|
      invariant 0 <= i <= |fields|
      invariant newErrors == Collect(names[..i], errs[..i])
    {
      var field := fields[i];
      var error := FieldError(field, rowData, tags, dateParse);
      assert error == errs[i] && field.field_name == names[i];
      if error != "" {
        newErrors := newErrors[field.field_name := error];
      }
      CollectStep(names, errs, i);
      i := i + 1;
    }
    assert names[..|fields|] == names && errs[..|fields|] == errs;
  }

  /** Field `i` reports an error. */
  ghost predicate Fails(fields: seq<Field>, rowData: JsObject<Draft>, tags: TagSource, dateParse: string -> Option<int>, i: int)
    requires SlotsFor(fields, rowData)
  {
    0 <= i < |fields| && FieldError(fields[i], rowData, tags, dateParse) != ""
  }

  /** Field `i` reports an error and no later field with its name does. */
  ghost predicate LastFailing(fields: seq<Field>, rowData: JsObject<Draft>, tags: TagSource, dateParse: string -> Option<int>, i: int)
    requires SlotsFor(fields, rowData)
  {
    Fails(fields, rowData, tags, dateParse, i) &&
    forall j :: i < j < |fields| && fields[j].field_name == fields[i].field_name ==> !Fails(fields, rowData, tags, dateParse, j)
  }

  /** `newErrors` names exactly the fields whose error is non-empty. */
  lemma SubmitErrorsKeys(fields: seq<Field>, rowData: JsObject<Draft>, tags: TagSource, dateParse: string -> Option<int>)
    requires SlotsFor(fields, rowData)
    ensures forall k :: k in SubmitErrors(fields, rowData, tags, dateParse) <==>
      exists i :: Fails(fields, rowData, tags, dateParse, i) && fields[i].field_name == k
  {
    var names, errs := Names(fields), FieldErrors(fields, rowData, tags, dateParse);
    forall k
      ensures k in SubmitErrors(fields, rowData, tags, dateParse) <==>
        exists i :: Fails(fields, rowData, tags, dateParse, i) && fields[i].field_name == k
    {
      CollectKey(names, errs, k);
    }
  }

  /** For each name, `newErrors` holds the error of the last failing field with that name. */
  lemma SubmitErrorsValues(fields: seq<Field>, rowData: JsObject<Draft>, tags: TagSource, dateParse: string -> Option<int>)
    requires SlotsFor(fields, rowData)
    ensures forall i :: LastFailing(fields, rowData, tags, dateParse, i) ==>
      fields[i].field_name in SubmitErrors(fields, rowData, tags, dateParse) &&
      SubmitErrors(fields, rowData, tags, dateParse)[fields[i].field_name] == FieldError(fields[i], rowData, tags, dateParse)
  {
    var names, errs := Names(fields), FieldErrors(fields, rowData, tags, dateParse);
    forall i | LastFailing(fields, rowData, tags, dateParse, i)
      ensures fields[i].field_name in SubmitErrors(fields, rowData, tags, dateParse) &&
        SubmitErrors(fields, rowData, tags, dateParse)[fields[i].field_name] == FieldError(fields[i], rowData, tags, dateParse)
    {
      forall j | i < j < |names| && names[j] == names[i] ensures errs[j] == "" {
        assert !Fails(fields, rowData, tags, dateParse, j);
      }
      CollectValue(names, errs, i);
    }
  }

  /** One element of the create-row payload: `{ field_type, field_name, field_value }`. */
  datatype PayloadEntry = PayloadEntry(field_type: string, field_name: string, field_value: Draft)

  /** `fields.filter(field => field.field_name === name)` */
  function Named(fields: seq<Field>, name: string): (r: seq<Field>)
    ensures forall i :: 0 <= i < |r| ==> r[i].field_name == name
  {
    if fields == [] then []
    else (if fields[0].field_name == name then [fields[0]] else []) + Named(fields[1..], name)
  }

  /** `fields.filter(...)[0]`, None when the filter is empty (and `.field_type` then throws). */
  function FirstNamed(fields: seq<Field>, name: string): Option<Field> {
    var matches := Named(fields, name);
    if |matches| > 0 then Some(matches[0]) else None
  }

  /** No field before field `i` has its name. */
  ghost predicate FirstWithName(fields: seq<Field>, i: int) {
    0 <= i < |fields| && forall j :: 0 <= j < i ==> fields[j].field_name != fields[i].field_name
  }

  /** The field `[0]` picks is the first field with that name; there is one exactly when the name occurs. */
  lemma {:induction false} FirstNamedIsFirst(fields: seq<Field>, name: string)
    ensures FirstNamed(fields, name).None? <==> name !in Names(fields)
    ensures FirstNamed(fields, name).Some? ==>
      exists i :: 0 <= i < |fields| && fields[i] == FirstNamed(fields, name).value && FirstWithName(fields, i)
  {
    if fields != [] {
      FirstNamedIsFirst(fields[1..], name);
      assert Names(fields) == [fields[0].field_name] + Names(fields[1..]);
      if fields[0].field_name != name && FirstNamed(fields, name).Some? {
        var i :| 0 <= i < |fields[1..]| && fields[1..][i] == FirstNamed(fields[1..], name).value && FirstWithName(fields[1..], i);
        assert fields[i + 1] == fields[1..][i];
        assert Named(fields[1..], name)[0].field_name == name;
        forall j | 0 <= j < i + 1 ensures fields[j].field_name != fields[i + 1].field_name {
          if j > 0 {
            assert fields[j] == fields[1..][j - 1];
          }
        }
      }
    }
  }

  /** `entries.map(item => ({ field_type, field_name: item[0], field_value: item[1] }))`; None when it throws. */
  function PayloadOf(fields: seq<Field>, entries: seq<(string, Draft)>): Option<seq<PayloadEntry>> {
    if entries == [] then Some([])
    else
      match FirstNamed(fields, entries[0].0)
      case None => None
      case Some(f) =>
        match PayloadOf(fields, entries[1..])
        case None => None
        case Some(rest) => Some([PayloadEntry(f.field_type, entries[0].0, entries[0].1)] + rest)
  }

  function Payload(fields: seq<Field>, rowData: JsObject<Draft>): Option<seq<PayloadEntry>>
    requires WellFormed(rowData)
  {
    PayloadOf(fields, Entries(rowData))
  }

  lemma {:induction false} PayloadOfShape(fields: seq<Field>, entries: seq<(string, Draft)>)
    ensures PayloadOf(fields, entries).Some? <==> forall i :: 0 <= i < |entries| ==> entries[i].0 in Names(fields)
    ensures PayloadOf(fields, entries).Some? ==>
      var p := PayloadOf(fields, entries).value;
      |p| == |entries| &&
      forall i :: 0 <= i < |p| ==>
        p[i].field_name == entries[i].0 && p[i].field_value == entries[i].1 &&
        FirstNamed(fields, entries[i].0) == Some(Field(p[i].field_name, p[i].field_type))
  {
    if entries != [] {
      PayloadOfShape(fields, entries[1..]);
      FirstNamedIsFirst(fields, entries[0].0);
      if FirstNamed(fields, entries[0].0).Some? {
        var f := FirstNamed(fields, entries[0].0).value;
        assert f.field_name == entries[0].0 by {
          assert Named(fields, entries[0].0)[0] == f;
        }
      }
      forall i | 0 <= i < |entries[1..]| ensures entries[1..][i] == entries[i + 1] {
      }
    }
  }

  /**
   * When every slot belongs to a field, the payload has one entry per slot, in the
   * draft's enumeration order, each with the slot's value and the type of the first
   * field with that name; the names in it are pairwise different.
   */
  lemma PayloadShape(fields: seq<Field>, rowData: JsObject<Draft>)
    requires WellFormed(rowData)
    requires forall k :: k in rowData.vals ==> k in Names(fields)
    ensures Payload(fields, rowData).Some?
    ensures var p := Payload(fields, rowData).value;
      |p| == |OwnKeys(rowData)| &&
      forall i :: 0 <= i < |p| ==>
        p[i].field_name == OwnKeys(rowData)[i] && p[i].field_value == rowData.vals[p[i].field_name] &&
        FirstNamed(fields, p[i].field_name) == Some(Field(p[i].field_name, p[i].field_type))
    ensures Distinct(OwnKeys(rowData))
  {
    OwnKeysAreProperties(rowData);
    PayloadOfShape(fields, Entries(rowData));
  }

  /** The create-row request: POST `/database/{db}/table/{table_id}/item` with `{ items: payload }`. */
  datatype RowPost = RowPost(url: string, items: seq<PayloadEntry>)

  /** How a submission ends: blocked by validation, a TypeError while building the payload, or a POST. */
  datatype RowSubmit = Invalid | Threw | Posted(request: RowPost)

  function ItemsUrl(database_name: string, table_id: string): string {
    Host + "/database/" + database_name + "/table/" + table_id + "/item"
  }

  function SubmitOutcome(database_name: string, table_id: string, fields: seq<Field>, rowData: JsObject<Draft>,
                         tags: TagSource, dateParse: string -> Option<int>): RowSubmit
    requires WellFormed(rowData) && SlotsFor(fields, rowData)
  {
    if |SubmitErrors(fields, rowData, tags, dateParse)| != 0 then Invalid
    else
      match Payload(fields, rowData)
      case None => Threw
      case Some(p) => Posted(RowPost(ItemsUrl(database_name, table_id), p))
  }

  /** `newErrors` is empty exactly when every field's error is empty. */
  lemma SubmitErrorsEmptyIff(fields: seq<Field>, rowData: JsObject<Draft>, tags: TagSource, dateParse: string -> Option<int>)
    requires SlotsFor(fields, rowData)
    ensures |SubmitErrors(fields, rowData, tags, dateParse)| == 0 <==>
      forall i :: 0 <= i < |fields| ==> FieldError(fields[i], rowData, tags, dateParse) == ""
  {
    SubmitErrorsKeys(fields, rowData, tags, dateParse);
    var errs := SubmitErrors(fields, rowData, tags, dateParse);
    if forall i :: 0 <= i < |fields| ==> FieldError(fields[i], rowData, tags, dateParse) == "" {
      assert forall k :: k !in errs;
      assert errs == map[];
    } else {
      var i :| 0 <= i < |fields| && FieldError(fields[i], rowData, tags, dateParse) != "";
      assert Fails(fields, rowData, tags, dateParse, i);
      assert fields[i].field_name in errs;
    }
  }

  /** A request is sent only when no field reports an error, and then always when every slot belongs to a field. */
  lemma SubmitPostsIffValid(database_name: string, table_id: string, fields: seq<Field>, rowData: JsObject<Draft>,
                            tags: TagSource, dateParse: string -> Option<int>)
    requires WellFormed(rowData) && SlotsFor(fields, rowData)
    requires forall k :: k in rowData.vals ==> k in Names(fields)
    ensures SubmitOutcome(database_name, table_id, fields, rowData, tags, dateParse).Posted? <==>
      forall i :: 0 <= i < |fields| ==> FieldError(fields[i], rowData, tags, dateParse) == ""
  {
    SubmitErrorsEmptyIff(fields, rowData, tags, dateParse);
    PayloadShape(fields, rowData);
  }

  /** `.then(response => ...)`/`.catch`: on status 200 `onAdd` (if given) and then `onClose`; otherwise nothing. */
  function SubmitCallbacks(response: Response, hasOnAdd: bool): seq<Callback> {
    if Succeeded(response) then (if hasOnAdd then [OnAdd] else []) + [OnClose] else []
  }

  lemma CallbacksOnlyOnSuccess(response: Response, hasOnAdd: bool)
    ensures SubmitCallbacks(response, hasOnAdd) != [] <==> response == Status(200)
    ensures response == Status(200) ==> SubmitCallbacks(response, hasOnAdd)[|SubmitCallbacks(response, hasOnAdd)| - 1] == OnClose
    ensures OnAdd in SubmitCallbacks(response, hasOnAdd) <==> response == Status(200) && hasOnAdd
  {
  }

  // ---------------------------------------------------------------------------
  // The component's state

  /** `AddTableRow`: the props it reads and the two pieces of state it updates. */
  class AddTableRow {
    const database_name: string
    const table_id: string
    const fields: seq<Field>
    const tags: TagSource
    const dateParse: string -> Option<int>
    var rowData: JsObject<Draft>
    var errors: map<string, string>

    /** Every field has a slot, and every slot belongs to some field. */
    ghost predicate Valid()
      reads this
    {
      WellFormed(rowData) && SlotsFor(fields, rowData) &&
      forall k :: k in rowData.vals ==> k in Names(fields)
    }

    constructor(database_name: string, table_id: string, fields: seq<Field>, tags: TagSource, dateParse: string -> Option<int>)
      ensures Valid()
      ensures this.database_name == database_name && this.table_id == table_id && this.fields == fields
      ensures this.tags == tags && this.dateParse == dateParse
      ensures rowData == InitialDraft(fields) && errors == map[]
    {
      var initialState := BuildRowData(fields);
      InitialDraftSlots(fields);
      InitialDraftKeys(fields);
      this.database_name := database_name;
      this.table_id := table_id;
      this.fields := fields;
      this.tags := tags;
      this.dateParse := dateParse;
      rowData := initialState;
      errors := map[];
    }

    /** `handleInputChange(field, value)`, called by the inputs rendered for the elements of `fields`. */
    method HandleInputChange(field: Field, value: Draft)
      requires Valid()
      requires field in fields
      modifies this
      ensures Valid()
      ensures rowData == InputChanged(old(rowData), field, value)
      ensures field.field_name in rowData.vals
      ensures errors == old(errors)[field.field_name := ValidateField(TagOf(tags, field), rowData.vals[field.field_name], dateParse)]
    {
      var newRowData := Copy(rowData);
      if field.field_type == "dateInvl" {
        newRowData := Put(newRowData, field.field_name, Obj(Spread(Get(newRowData, field.field_name)) + Spread(Some(value))));
      } else {
        newRowData := Put(newRowData, field.field_name, value);
      }
      rowData := newRowData;
      errors := errors[field.field_name := ValidateField(TagOf(tags, field), newRowData.vals[field.field_name], dateParse)];
    }

    /** `handleSubmit`: validation of every field, `setErrors(newErrors)`, then the POST if nothing failed. */
    method HandleSubmit() returns (outcome: RowSubmit)
      requires Valid()
      modifies this`errors
      ensures Valid()
      ensures errors == SubmitErrors(fields, rowData, tags, dateParse)
      ensures outcome == SubmitOutcome(database_name, table_id, fields, rowData, tags, dateParse)
      ensures !outcome.Threw?
      ensures outcome.Posted? <==> forall i :: 0 <= i < |fields| ==> FieldError(fields[i], rowData, tags, dateParse) == ""
    {
      SubmitPostsIffValid(database_name, table_id, fields, rowData, tags, dateParse);
      PayloadShape(fields, rowData);
      var newErrors := CollectErrors(fields, rowData, tags, dateParse);
      errors := newErrors;
      if |newErrors| == 0 {
        var payload := Payload(fields, rowData);
        if payload.None? {
          outcome := Threw;
        } else {
          outcome := Posted(RowPost(ItemsUrl(database_name, table_id), payload.value));
        }
      } else {
        outcome := Invalid;
      }
    }
  }
}
