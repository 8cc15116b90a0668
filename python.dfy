/** The Python values and exceptions the server's type layer works with. */
module Python {
  import opened Decimal

  /** A `datetime`, known only through the instant it denotes. */
  datatype DateTime = DateTime(instant: int)

  /** A validated `DateInterval`: both ends are `datetime`s once the validators have run. */
  datatype Interval = Interval(start_date: DateTime, end_date: DateTime)

  /** The values that reach a validator: what JSON decodes to, plus the objects the validators build. */
  datatype PyValue =
    | PyNone
    | PyBool(b: bool)
    | PyInt(i: int)
    | PyFloat(x: real)
    | PyStr(s: string)
    | PyDict(entries: map<string, PyValue>)
    | PyDateTime(d: DateTime)
    | PyInterval(iv: Interval)
    | PyObjectId(hex: string)

  /** The exceptions a validator can end with. */
  datatype PyError =
    | ValueError(message: string)
    | TypeError
    | ValidationError(message: string)
    | AttributeError(name: string)
    | OverflowError

  datatype Outcome<+T> = Ok(value: T) | Raise(error: PyError)

  /** `isinstance(v, int)`: `bool` is a subclass of `int`. */
  predicate IsInt(v: PyValue) {
    v.PyInt? || v.PyBool?
  }

  /** `bool(v)` */
  predicate Truthy(v: PyValue) {
    match v
    case PyNone => false
    case PyBool(b) => b
    case PyInt(i) => i != 0
    case PyFloat(x) => x != 0.0
    case PyStr(s) => s != ""
    case PyDict(m) => m != map[]
    case _ => true
  }

  /** `str(i)` for an `int`. */
  function IntToString(i: int): (r: string)
    ensures |r| > 0
    ensures i >= 0 ==> r == NatToDecimal(i)
    ensures i < 0 ==> r == "-" + NatToDecimal(-i)
  {
    if i < 0 then "-" + NatToDecimal(-i) else NatToDecimal(i)
  }

  /**
   * `str(v)`.  Strings, `None`, booleans, integers and ObjectIds (their 24 hexadecimal
   * digits) are spelled out; floats, datetimes, dicts and models go through `show`.
   */
  function Str(v: PyValue, show: PyValue -> string): string {
    match v
    case PyStr(s) => s
    case PyNone => "None"
    case PyBool(b) => if b then "True" else "False"
    case PyInt(i) => IntToString(i)
    case PyObjectId(hex) => hex
    case _ => show(v)
  }

  /** `str` of an integer reads back as that integer. */
  lemma IntToStringRoundTrip(i: int)
    ensures var r := IntToString(i);
      (r[0] == '-') == (i < 0) &&
      (i >= 0 ==> DecimalValue(r) == i) &&
      (i < 0 ==> DecimalValue(r[1..]) == -i)
  {
    var r := IntToString(i);
    if i < 0 {
      DecimalRoundTrip(-i);
      assert r[1..] == NatToDecimal(-i);
    } else {
      DecimalRoundTrip(i);
      assert IsDigit(r[0]);
    }
  }

  /** `str` of a truthy string, boolean, integer or ObjectId is never empty, except for an empty ObjectId spelling. */
  lemma StrOfTruthyNonEmpty(v: PyValue, show: PyValue -> string)
    requires Truthy(v)
    requires v.PyObjectId? ==> v.hex != ""
    requires forall w :: show(w) != ""
    ensures Str(v, show) != ""
  {
  }
}
