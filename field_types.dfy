/**
 * `FieldType` (svc/server/src/types/type.py): the six column types, their acceptance
 * rules, and `validate`, which finds the rule by the member's name.
 */
module FieldTypes {
  import opened Wrappers
  import opened Python
  import DateIntervals

  datatype FieldType = INTEGER | REAL | CHAR | STRING | DATE | DATE_INTERVAL

  const AllTypes: seq<FieldType> := [INTEGER, REAL, CHAR, STRING, DATE, DATE_INTERVAL]

  /** The member's name, `_name_`. */
  function Name(t: FieldType): string {
    match t
    case INTEGER => "INTEGER"
    case REAL => "REAL"
    case CHAR => "CHAR"
    case STRING => "STRING"
    case DATE => "DATE"
    case DATE_INTERVAL => "DATE_INTERVAL"
  }

  /** The member's value: the tag stored with a column and sent by the front end. */
  function Value(t: FieldType): string {
    match t
    case INTEGER => "integer"
    case REAL => "real"
    case CHAR => "char"
    case STRING => "string"
    case DATE => "date"
    case DATE_INTERVAL => "dateInvl"
  }

  /** `FieldType(s)`: lookup by value, None when no member has it. */
  function FromValue(s: string): (r: Option<FieldType>)
    ensures r.Some? ==> Value(r.value) == s
  {
    if s == "integer" then Some(INTEGER)
    else if s == "real" then Some(REAL)
    else if s == "char" then Some(CHAR)
    else if s == "string" then Some(STRING)
    else if s == "date" then Some(DATE)
    else if s == "dateInvl" then Some(DATE_INTERVAL)
    else None
  }

  /** Looking a member up by its value finds it, and exactly the six values are found. */
  lemma ValueRoundTrip(t: FieldType, s: string)
    ensures FromValue(Value(t)) == Some(t)
    ensures FromValue(s).Some? <==> s in Values()
  {
  }

  function Values(): (r: set<string>)
    ensures forall t :: Value(t) in r
    ensures forall s :: s in r ==> exists t :: Value(t) == s
  {
    assert Value(INTEGER) == "integer" && Value(REAL) == "real" && Value(CHAR) == "char";
    assert Value(STRING) == "string" && Value(DATE) == "date" && Value(DATE_INTERVAL) == "dateInvl";
    {"integer", "real", "char", "string", "date", "dateInvl"}
  }

  /** `str.lower()` on the ASCII letters the member names are made of. */
  function Lower(s: string): (r: string)
    ensures |r| == |s| && forall i :: 0 <= i < |s| ==> r[i] == LowerChar(s[i])
  {
    seq(|s|, i requires 0 <= i < |s| => LowerChar(s[i]))
  }

  function LowerChar(c: char): char {
    if 'A' <= c <= 'Z' then (c as int + 32) as char else c
  }

  /** The name `validate` looks up. */
  function RuleName(t: FieldType): string {
    "_validate_" + Lower(Name(t))
  }

  const BadValues: string := "bad values provided to the field."

  /** The methods `FieldType` defines, by name. */
  const Methods: set<string> := {
    "_validate_integer", "_validate_real", "_validate_char",
    "_validate_string", "_validate_date", "_validate_date_interval", "validate"
  }

  /** `_validate_integer`: an `int` (a `bool` included) is returned unchanged. */
  function ValidateInteger(value: PyValue): (r: Outcome<PyValue>)
    ensures r.Ok? <==> IsInt(value)
    ensures r.Ok? ==> r.value == value
    ensures r.Raise? ==> r.error == ValueError(BadValues)
  {
    if !IsInt(value) then Raise(ValueError(BadValues)) else Ok(value)
  }

  /** `_validate_real`: only a `float`; an `int` is rejected. */
  function ValidateReal(value: PyValue): (r: Outcome<PyValue>)
    ensures r.Ok? <==> value.PyFloat?
    ensures r.Ok? ==> r.value == value
    ensures r.Raise? ==> r.error == ValueError(BadValues)
    ensures r.Ok? ==> ValidateInteger(value).Raise?
  {
    if !value.PyFloat? then Raise(ValueError(BadValues)) else Ok(value)
  }

  /** `_validate_char`: a `str` of one code point. */
  function ValidateChar(value: PyValue): (r: Outcome<PyValue>)
    ensures r.Ok? <==> value.PyStr? && |value.s| == 1
    ensures r.Ok? ==> r.value == value
    ensures r.Raise? ==> r.error == ValueError(BadValues)
    ensures r.Ok? ==> ValidateString(value) == r
  {
    if !value.PyStr? || |value.s| != 1 then Raise(ValueError(BadValues)) else Ok(value)
  }

  /** `_validate_string`: any `str`, the empty one included. */
  function ValidateString(value: PyValue): (r: Outcome<PyValue>)
    ensures r.Ok? <==> value.PyStr?
    ensures r.Ok? ==> r.value == value
    ensures r.Raise? ==> r.error == ValueError(BadValues)
  {
    if !value.PyStr? then Raise(ValueError(BadValues)) else Ok(value)
  }

  /** `_validate_date`: `parse(value)`; dateutil raises a TypeError for anything but a string. */
  function ValidateDate(value: PyValue, parse: string -> Outcome<DateTime>): (r: Outcome<PyValue>)
    ensures !value.PyStr? ==> r == Raise(TypeError)
    ensures value.PyStr? && parse(value.s).Ok? ==> r == Ok(PyDateTime(parse(value.s).value))
    ensures value.PyStr? && parse(value.s).Raise? ==> r == Raise(parse(value.s).error)
  {
    if !value.PyStr? then Raise(TypeError)
    else
      match parse(value.s)
      case Ok(d) => Ok(PyDateTime(d))
      case Raise(e) => Raise(e)
  }

  /** `_validate_date_interval`: `DateInterval(**value)`. */
  function ValidateDateInterval(value: PyValue, parse: string -> Outcome<DateTime>): (r: Outcome<PyValue>)
    ensures r.Ok? <==> DateIntervals.Construct(value, parse).Ok?
    ensures r.Ok? ==> r.value == PyInterval(DateIntervals.Construct(value, parse).value)
    ensures r.Raise? ==> r.error == DateIntervals.Construct(value, parse).error
  {
    match DateIntervals.Construct(value, parse)
    case Ok(iv) => Ok(PyInterval(iv))
    case Raise(e) => Raise(e)
  }

  /** `self.__getattribute__(name)(value)`: an undefined name raises an AttributeError. */
  function Call(name: string, value: PyValue, parse: string -> Outcome<DateTime>): Outcome<PyValue> {
    if name == "_validate_integer" then ValidateInteger(value)
    else if name == "_validate_real" then ValidateReal(value)
    else if name == "_validate_char" then ValidateChar(value)
    else if name == "_validate_string" then ValidateString(value)
    else if name == "_validate_date" then ValidateDate(value, parse)
    else if name == "_validate_date_interval" then ValidateDateInterval(value, parse)
    else Raise(AttributeError(name))
  }

  /** `validate`: the rule named `_validate_` followed by the lower-cased member name. */
  function Validate(t: FieldType, value: PyValue, parse: string -> Outcome<DateTime>): (r: Outcome<PyValue>)
    ensures r == Rule(t, value, parse)
  {
    RuleNameSpelled(t);
    assert "_validate_date"[10] == 'd' && "_validate_real"[10] == 'r' && "_validate_char"[10] == 'c';
    Call(RuleName(t), value, parse)
  }

  /** The rule each member is meant to use. */
  function Rule(t: FieldType, value: PyValue, parse: string -> Outcome<DateTime>): Outcome<PyValue> {
    match t
    case INTEGER => ValidateInteger(value)
    case REAL => ValidateReal(value)
    case CHAR => ValidateChar(value)
    case STRING => ValidateString(value)
    case DATE => ValidateDate(value, parse)
    case DATE_INTERVAL => ValidateDateInterval(value, parse)
  }

  /** A lower-cased name, checked character by character. */
  lemma LowerName(name: string, lower: string)
    requires |name| == |lower| && forall i :: 0 <= i < |name| ==> LowerChar(name[i]) == lower[i]
    ensures Lower(name) == lower
  {

  }

  /** The method names, spelled out. */
  function Spelled(t: FieldType): string {
    match t
    case INTEGER => "_validate_integer"
    case REAL => "_validate_real"
    case CHAR => "_validate_char"
    case STRING => "_validate_string"
    case DATE => "_validate_date"
    case DATE_INTERVAL => "_validate_date_interval"
  }

  lemma LowerInteger()
    ensures "_validate_" + Lower("INTEGER") == "_validate_integer"
  {
    LowerName("INTEGER", "integer");
  }

  lemma LowerReal()
    ensures "_validate_" + Lower("REAL") == "_validate_real"
  {
    LowerName("REAL", "real");
  }

  lemma LowerCharName()
    ensures "_validate_" + Lower("CHAR") == "_validate_char"
  {
    LowerName("CHAR", "char");
  }

  lemma LowerString()
    ensures "_validate_" + Lower("STRING") == "_validate_string"
  {
    LowerName("STRING", "string");
  }

  lemma LowerDate()
    ensures "_validate_" + Lower("DATE") == "_validate_date"
  {
    LowerName("DATE", "date");
  }

  lemma LowerDateInterval()
    ensures "_validate_" + Lower("DATE_INTERVAL") == "_validate_date_interval"
  {
    LowerName("DATE_INTERVAL", "date_interval");
  }

  /** Lower-casing the member names gives the method names. */
  lemma RuleNameSpelled(t: FieldType)
    ensures RuleName(t) == Spelled(t)
  {
    match t {
      case INTEGER => LowerInteger();
      case REAL => LowerReal();
      case CHAR => LowerCharName();
      case STRING => LowerString();
      case DATE => LowerDate();
      case DATE_INTERVAL => LowerDateInterval();
    }
  }

  /** Every member's name leads to a method that exists, and it is that member's own rule. */
  lemma DispatchIsTotal(t: FieldType, value: PyValue, parse: string -> Outcome<DateTime>)
    ensures RuleName(t) in Methods
    ensures Validate(t, value, parse) == Rule(t, value, parse)
  {
    RuleNameSpelled(t);
    assert "_validate_date"[10] == 'd' && "_validate_real"[10] == 'r' && "_validate_char"[10] == 'c';
  }

  /** Dispatching by the value instead would miss the interval rule: there is no `_validate_dateinvl`. */
  lemma ValueDispatchWouldFail(value: PyValue, parse: string -> Outcome<DateTime>)
    ensures "_validate_" + Lower(Value(DATE_INTERVAL)) !in Methods
    ensures Call("_validate_" + Lower(Value(DATE_INTERVAL)), value, parse) == Raise(AttributeError("_validate_dateinvl"))
  {
    LowerName("dateInvl", "dateinvl");
    assert "_validate_" + Lower(Value(DATE_INTERVAL)) == "_validate_dateinvl";
  }
}
