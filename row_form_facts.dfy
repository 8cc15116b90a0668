/**
 * What the add-row form does with the tag source it has (`type`, which the field
 * records never carry) and with the tag source it evidently meant (`field_type`).
 */
module RowFormFacts {
  import opened Wrappers
  import opened Decimal
  import opened JsText
  import opened JsObjects
  import opened Api
  import opened RowForm

  // ---------------------------------------------------------------------------
  // The rules of validateField, one tag at a time

  /** The integer rule accepts a typed text exactly when it is in the language of `/^-?\d+$/`, and never an object. */
  lemma IntegerRule(s: string, m: map<string, string>, dateParse: string -> Option<int>)
    ensures ValidateField(Some("integer"), Text(s), dateParse) == "" <==> IntegerLanguage(s)
    ensures ValidateField(Some("integer"), Text(s), dateParse) in {"", MustBeInteger}
    ensures ValidateField(Some("integer"), Obj(m), dateParse) == MustBeInteger
  {
    IntegerMatcherCorrect(s);
    assert DigitRun("[object Object]") == 0;
  }

  /** The real rule accepts a typed text exactly when it is in the language of `/^-?\d+(\.\d+)?$/`, and never an object. */
  lemma RealRule(s: string, m: map<string, string>, dateParse: string -> Option<int>)
    ensures ValidateField(Some("real"), Text(s), dateParse) == "" <==> RealLanguage(s)
    ensures ValidateField(Some("real"), Text(s), dateParse) in {"", MustBeReal}
    ensures ValidateField(Some("real"), Obj(m), dateParse) == MustBeReal
  {
    RealMatcherCorrect(s);
    assert DigitRun("[object Object]") == 0;
  }

  /** The string rule rejects a value that is not text and a text of white space only. */
  lemma StringRule(v: Draft, dateParse: string -> Option<int>)
    ensures ValidateField(Some("string"), v, dateParse) == "" <==> v.Text? && !AllWhitespace(v.s)
    ensures ValidateField(Some("string"), v, dateParse) in {"", MustBeString}
  {
    if v.Text? {
      TrimEmptyIff(v.s);
    }
  }

  /** The char rule accepts exactly the texts of one UTF-16 code unit. */
  lemma CharRule(v: Draft, dateParse: string -> Option<int>)
    ensures ValidateField(Some("char"), v, dateParse) == "" <==> v.Text? && |v.s| == 1 && v.s[0] as int < 0x1_0000
    ensures ValidateField(Some("char"), v, dateParse) in {"", MustBeChar}
  {
    if v.Text? {
      SingleCodeUnit(v.s);
    }
  }

  /** The date rule accepts exactly what `Date.parse` turns into a number. */
  lemma DateRule(s: string, m: map<string, string>, dateParse: string -> Option<int>)
    ensures ValidateField(Some("date"), Text(s), dateParse) == "" <==> dateParse(s).Some?
    ensures ValidateField(Some("date"), Obj(m), dateParse) == "" <==> dateParse("[object Object]").Some?
  {
  }

  /** Both ends are present, non-empty and parse, and the start is strictly earlier. */
  ghost predicate IntervalAccepted(v: Draft, dateParse: string -> Option<int>) {
    v.Obj? && "start_date" in v.props && "end_date" in v.props &&
    !BadDate(Some(v.props["start_date"]), dateParse) && !BadDate(Some(v.props["end_date"]), dateParse) &&
    dateParse(v.props["start_date"]).value < dateParse(v.props["end_date"]).value
  }

  /**
   * The interval rule accepts an object exactly when both ends are present, non-empty
   * and parse, and the start is strictly earlier; the checks come in that order.
   */
  lemma IntervalRule(v: Draft, dateParse: string -> Option<int>)
    ensures var r := ValidateField(Some("dateInvl"), v, dateParse);
      r in {"", StartInvalid, EndInvalid, StartNotBefore} &&
      (r == StartInvalid <==> BadDate(Prop(v, "start_date"), dateParse)) &&
      (r == EndInvalid <==> !BadDate(Prop(v, "start_date"), dateParse) && BadDate(Prop(v, "end_date"), dateParse)) &&
      (r == "" <==> IntervalAccepted(v, dateParse))
  {
  }

  /** A tag the switch does not know, or no tag at all, accepts every value. */
  lemma UnknownTagAccepts(tag: Option<string>, v: Draft, dateParse: string -> Option<int>)
    requires tag.None? || tag.value !in KnownTags
    ensures ValidateField(tag, v, dateParse) == ""
  {
  }

  /** The scenario of an integer column: "abc" is rejected and "42" accepted. */
  lemma IntegerScenario(dateParse: string -> Option<int>)
    ensures ValidateField(Some("integer"), Text("abc"), dateParse) == MustBeInteger
    ensures ValidateField(Some("integer"), Text("42"), dateParse) == ""
    ensures ValidateField(Some("integer"), Text("-7"), dateParse) == ""
    ensures ValidateField(Some("integer"), Text("4.2"), dateParse) == MustBeInteger
    ensures ValidateField(Some("real"), Text("4.2"), dateParse) == ""
    ensures ValidateField(Some("real"), Text("4."), dateParse) == MustBeReal
  {
    assert !MatchesInteger("abc") by {
      assert DigitRun("abc") == 0;
    }
    assert MatchesInteger("42") by {
      assert DigitRun("42"[0..]) == 2 by {
        assert "42"[1..][1..] == "";
      }
    }
    assert MatchesInteger("-7") by {
      assert "-7"[1..] == "7";
      assert DigitRun("7") == 1 by {
        assert "7"[1..] == "";
      }
    }
    assert DigitRun("4.2") == 1 by {
      assert "4.2"[1..] == ".2";
    }
    assert !MatchesInteger("4.2");
    assert MatchesReal("4.2") by {
      assert "4.2"[2..] == "2";
    }
    assert !MatchesReal("4.") by {
      assert "4."[2..] == "";
      assert DigitRun("4.") == 1 by {
        assert "4."[1..] == ".";
      }
    }
  }

  // ---------------------------------------------------------------------------
  // The tag bug

  /** As written, validation never reports anything: the destructured `type` is always `undefined`. */
  lemma AsWrittenNothingFails(fields: seq<Field>, rowData: JsObject<Draft>, dateParse: string -> Option<int>)
    requires SlotsFor(fields, rowData)
    ensures SubmitErrors(fields, rowData, TypeProperty, dateParse) == map[]
  {
    SubmitErrorsEmptyIff(fields, rowData, TypeProperty, dateParse);
  }

  /** A key that does not start with a digit is not an array index. */
  lemma NotIndex(k: string)
    requires |k| > 0 && !IsDigit(k[0])
    ensures !IsArrayIndex(k)
  {
  }

  /** The draft of a one-column form. */
  lemma SingleColumnDraft(f: Field)
    ensures InitialDraft([f]) == JsObject([f.field_name], map[f.field_name := DefaultDraft(f.field_type)])
  {
    assert [f][..0] == [];
  }

  /** A one-property object that is not an array index enumerates that property alone. */
  lemma SingleKeyOrder<V>(k: string, v: V)
    requires !IsArrayIndex(k)
    ensures OwnKeys(JsObject([k], map[k := v])) == [k]
  {
    assert Keep([k], true) == [] by {
      assert [k][1..] == [];
    }
    assert Keep([k], false) == [k] by {
      assert [k][1..] == [];
    }
  }

  /** As written, an untouched form of an integer column is posted with an empty value. */
  lemma AsWrittenPostsEmptyInteger(dateParse: string -> Option<int>)
    ensures var fields := [Field("age", "integer")];
      var rowData := InitialDraft(fields);
      WellFormed(rowData) && SlotsFor(fields, rowData) &&
      SubmitOutcome("db", "t", fields, rowData, TypeProperty, dateParse)
        == Posted(RowPost(ItemsUrl("db", "t"), [PayloadEntry("integer", "age", Text(""))]))
  {
    var f := Field("age", "integer");
    var fields := [f];
    InitialDraftSlots(fields);
    var rowData := InitialDraft(fields);
    AsWrittenNothingFails(fields, rowData, dateParse);
    SingleColumnDraft(f);
    NotIndex("age");
    SingleKeyOrder("age", Text(""));
    var entries := Entries(rowData);
    assert entries == [("age", Text(""))];
    assert Named(fields, "age") == [f] by {
      assert fields[1..] == [];
    }
    assert FirstNamed(fields, "age") == Some(f);
    assert PayloadOf(fields, entries[1..]) == Some([]);
    assert entries[0].0 == "age" && entries[0].1 == Text("");
    assert [PayloadEntry("integer", "age", Text(""))] + [] == [PayloadEntry("integer", "age", Text(""))];
    assert PayloadOf(fields, entries) == Some([PayloadEntry("integer", "age", Text(""))]);
  }

  /**
   * With the tag read from `field_type`, an untouched form of any known type is
   * blocked (when `Date.parse("")` is NaN, as it is).
   */
  lemma IntendedRejectsDefault(field_type: string, dateParse: string -> Option<int>)
    requires field_type in KnownTags
    requires dateParse("").None?
    ensures ValidateField(Some(field_type), DefaultDraft(field_type), dateParse) != ""
  {
    assert DigitRun("") == 0;
  }

  /** With the tag read from `field_type`, a submission is blocked exactly when some field is invalid. */
  lemma IntendedBlocksIffInvalid(database_name: string, table_id: string, fields: seq<Field>, rowData: JsObject<Draft>,
                                 dateParse: string -> Option<int>)
    requires WellFormed(rowData) && SlotsFor(fields, rowData)
    ensures SubmitOutcome(database_name, table_id, fields, rowData, FieldTypeProperty, dateParse) == Invalid <==>
      exists i :: 0 <= i < |fields| && ValidateField(Some(fields[i].field_type), rowData.vals[fields[i].field_name], dateParse) != ""
  {
    SubmitErrorsEmptyIff(fields, rowData, FieldTypeProperty, dateParse);
  }

  /** With the tag read from `field_type`, an untouched form with at least one column is never posted. */
  lemma IntendedBlocksUntouchedForm(fields: seq<Field>, dateParse: string -> Option<int>)
    requires |fields| > 0 && forall i :: 0 <= i < |fields| ==> fields[i].field_type in KnownTags
    requires dateParse("").None?
    ensures WellFormed(InitialDraft(fields)) && SlotsFor(fields, InitialDraft(fields))
    ensures SubmitOutcome("db", "t", fields, InitialDraft(fields), FieldTypeProperty, dateParse) == Invalid
  {
    InitialDraftSlots(fields);
    var n := |fields| - 1;
    var i :| LastWithName(fields, i) by {
      LastExists(fields, n);
    }
    InitialDraftValues(fields);
    IntendedRejectsDefault(fields[i].field_type, dateParse);
    IntendedBlocksIffInvalid("db", "t", fields, InitialDraft(fields), dateParse);
  }

  /** Some field from `i` on is the last with its name. */
  lemma {:induction false} LastExists(fields: seq<Field>, i: int)
    requires 0 <= i < |fields|
    ensures exists j :: i <= j < |fields| && LastWithName(fields, j)
    decreases |fields| - i
  {
    if !LastWithName(fields, i) {
      var j :| i < j < |fields| && fields[j].field_name == fields[i].field_name;
      LastExists(fields, j);
    }
  }

  // ---------------------------------------------------------------------------
  // Payload order

  /**
   * When no column name is an array index and the names are pairwise different, the
   * payload of the initial draft lists the columns in their order.
   */
  lemma PayloadFollowsColumns(fields: seq<Field>)
    requires Distinct(Names(fields))
    requires forall i :: 0 <= i < |fields| ==> !IsArrayIndex(fields[i].field_name)
    ensures WellFormed(InitialDraft(fields))
    ensures Payload(fields, InitialDraft(fields)).Some?
    ensures var p := Payload(fields, InitialDraft(fields)).value;
      |p| == |fields| && forall i :: 0 <= i < |p| ==> p[i].field_name == fields[i].field_name
  {
    InitialDraftKeys(fields);
    FirstNamesOfDistinct(Names(fields));
    OrderKeysWithoutIndices(Names(fields));
    PayloadShape(fields, InitialDraft(fields));
  }

  /** "1" is an array index. */
  lemma OneIsIndex()
    ensures IsArrayIndex("1")
  {
    assert DecimalValue("1") == 1 by {
      assert "1"[..0] == "";
    }
  }

  /** Property order of the keys "b", "1" created in that order. */
  lemma IndexKeyFirst()
    ensures OrderKeys(["b", "1"]) == ["1", "b"]
  {
    OneIsIndex();
    NotIndex("b");
    var ks := ["b", "1"];
    assert ks[1..] == ["1"] && ks[1..][1..] == [];
    assert Keep(ks, true) == ["1"];
    assert Keep(ks, false) == ["b"];
    assert SortIndices(["1"]) == ["1"] by {
      assert ["1"][1..] == [];
    }
  }

  /** A column named "1" after one named "b" is sent first: the payload follows property order, not column order. */
  lemma PayloadReordersIndexNames()
    ensures var fields := [Field("b", "string"), Field("1", "string")];
      WellFormed(InitialDraft(fields)) &&
      OwnKeys(InitialDraft(fields)) == ["1", "b"]
  {
    var fields := [Field("b", "string"), Field("1", "string")];
    InitialDraftKeys(fields);
    SingleColumnDraft(fields[0]);
    assert fields[..1] == [fields[0]];
    assert InitialDraft(fields).keys == ["b", "1"];
    IndexKeyFirst();
  }
}
