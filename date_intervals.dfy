/**
 * `DateInterval` (svc/server/src/types/dateinvl.py): each end passes through when it
 * is a `datetime` and is parsed otherwise; both ends serialise through `isoformat`.
 */
module DateIntervals {
  import opened Python

  /** The names of the two fields. */
  const StartKey: string := "start_date"
  const EndKey: string := "end_date"

  /** The message of a date the parser does not understand. */
  function NoFormatMessage(date: string): string {
    date + " is not matching any formats of date!"
  }

  /**
   * `validate_dateteime_objects` as written: a `datetime` is kept; a string goes to
   * `parse` (Raise carries the exception dateutil raises); any other value makes
   * `parse` raise a TypeError.  An OverflowError from `parse` is not a ValueError and
   * passes through.  When `parse` raises a ValueError, the handler calls
   * `ValidationError(message)`, and pydantic's ValidationError has no constructor taking
   * a message, so that call raises a TypeError which pydantic passes on unchanged.
   */
  function ValidateDateAsWritten(date: PyValue, parse: string -> Outcome<DateTime>): (r: Outcome<DateTime>)
    ensures date.PyDateTime? ==> r == Ok(date.d)
    ensures date.PyStr? && parse(date.s).Ok? ==> r == parse(date.s)
    ensures date.PyStr? && parse(date.s).Raise? && parse(date.s).error.ValueError? ==> r == Raise(TypeError)
    ensures date.PyStr? && parse(date.s) == Raise(OverflowError) ==> r == Raise(OverflowError)
    ensures !date.PyDateTime? && !date.PyStr? ==> r == Raise(TypeError)
  {
    match date
    case PyDateTime(d) => Ok(d)
    case PyStr(s) =>
      (match parse(s)
       case Ok(d) => Ok(d)
       case Raise(ValueError(_)) => Raise(TypeError)
       case Raise(e) => Raise(e))
    case _ => Raise(TypeError)
  }

  /**
   * The validator as its documentation describes it: a date matching no format is
   * reported as a validation error with the message "... is not matching any formats
   * of date!" (what pydantic makes of a ValueError raised with that message).  The
   * construction below uses this rule.
   */
  function ValidateDate(date: PyValue, parse: string -> Outcome<DateTime>): (r: Outcome<DateTime>)
    ensures date.PyDateTime? ==> r == Ok(date.d)
    ensures date.PyStr? && parse(date.s).Ok? ==> r == parse(date.s)
    ensures date.PyStr? && parse(date.s).Raise? && parse(date.s).error.ValueError? ==> r == Raise(ValidationError(NoFormatMessage(date.s)))
    ensures date.PyStr? && parse(date.s) == Raise(OverflowError) ==> r == Raise(OverflowError)
    ensures !date.PyDateTime? && !date.PyStr? ==> r == Raise(TypeError)
  {
    match date
    case PyDateTime(d) => Ok(d)
    case PyStr(s) =>
      (match parse(s)
       case Ok(d) => Ok(d)
       case Raise(ValueError(_)) => Raise(ValidationError(NoFormatMessage(s)))
       case Raise(e) => Raise(e))
    case _ => Raise(TypeError)
  }

  /**
   * The two differ exactly on a string `parse` rejects with a ValueError: as written
   * the validator never raises the ValidationError its documentation promises.
   */
  lemma AsWrittenRaisesTypeError(date: PyValue, parse: string -> Outcome<DateTime>)
    requires forall s :: parse(s).Raise? ==> !parse(s).error.ValidationError?
    ensures ValidateDateAsWritten(date, parse) != ValidateDate(date, parse) <==>
      date.PyStr? && parse(date.s).Raise? && parse(date.s).error.ValueError?
    ensures ValidateDateAsWritten(date, parse).Raise? ==> !ValidateDateAsWritten(date, parse).error.ValidationError?
  {
    if date.PyStr? && parse(date.s).Raise? {
      assert !parse(date.s).error.ValidationError?;
    }
  }

  /** The error of a declared field missing from the keyword arguments. */
  const FieldRequired: PyError := ValidationError("Field required")

  /** The field `key` of the keyword arguments, validated. */
  function FieldOf(kwargs: map<string, PyValue>, key: string, parse: string -> Outcome<DateTime>): Outcome<DateTime> {
    if key in kwargs then ValidateDate(kwargs[key], parse) else Raise(FieldRequired)
  }

  /**
   * `DateInterval(**value)`: a non-mapping makes the call raise a TypeError; otherwise
   * `start_date` then `end_date` are validated, keys other than those two are ignored,
   * and the first failure ends construction.
   */
  function Construct(value: PyValue, parse: string -> Outcome<DateTime>): (r: Outcome<Interval>)
    ensures !value.PyDict? ==> r == Raise(TypeError)
    ensures r.Ok? <==> value.PyDict? && FieldOf(value.entries, StartKey, parse).Ok? && FieldOf(value.entries, EndKey, parse).Ok?
    ensures r.Ok? ==> r.value == Interval(FieldOf(value.entries, StartKey, parse).value, FieldOf(value.entries, EndKey, parse).value)
    ensures value.PyDict? && FieldOf(value.entries, StartKey, parse).Raise? ==> r == Raise(FieldOf(value.entries, StartKey, parse).error)
  {
    match value
    case PyDict(kwargs) =>
      (match FieldOf(kwargs, StartKey, parse)
       case Raise(e) => Raise(e)
       case Ok(start) =>
         match FieldOf(kwargs, EndKey, parse)
         case Raise(e) => Raise(e)
         case Ok(end) => Ok(Interval(start, end)))
    case _ => Raise(TypeError)
  }

  /** `serialize_datetime_objects` for both fields: `{ start_date: start.isoformat(), end_date: end.isoformat() }`. */
  function Serialize(iv: Interval, isoformat: DateTime -> string): (r: map<string, string>)
    ensures r.Keys == {StartKey, EndKey}
    ensures r[StartKey] == isoformat(iv.start_date) && r[EndKey] == isoformat(iv.end_date)
  {
    map[StartKey := isoformat(iv.start_date), EndKey := isoformat(iv.end_date)]
  }

  /** The serialised form as the mapping a later `DateInterval(**value)` receives. */
  function AsKwargs(m: map<string, string>): (r: PyValue)
    ensures r.PyDict? && r.entries.Keys == m.Keys
    ensures forall k :: k in m ==> r.entries[k] == PyStr(m[k])
  {
    PyDict(map k | k in m :: PyStr(m[k]))
  }

  /** Two `datetime`s always make an interval, in either order: nothing checks that the start comes first. */
  lemma NoOrderEnforced(start: DateTime, end: DateTime, parse: string -> Outcome<DateTime>)
    ensures Construct(PyDict(map[StartKey := PyDateTime(start), EndKey := PyDateTime(end)]), parse) == Ok(Interval(start, end))
    ensures Construct(PyDict(map[StartKey := PyDateTime(end), EndKey := PyDateTime(start)]), parse) == Ok(Interval(end, start))
  {
  }

  /** Two parsable strings make an interval even when the end parses to an earlier instant. */
  lemma ReversedStringsAccepted(a: string, b: string, parse: string -> Outcome<DateTime>)
    requires parse(a).Ok? && parse(b).Ok?
    requires parse(a).value.instant > parse(b).value.instant
    ensures Construct(PyDict(map[StartKey := PyStr(a), EndKey := PyStr(b)]), parse) == Ok(Interval(parse(a).value, parse(b).value))
  {
  }

  /** Serialising and constructing again gives the same interval when `parse` reads back what `isoformat` writes. */
  lemma SerializeRoundTrip(iv: Interval, isoformat: DateTime -> string, parse: string -> Outcome<DateTime>)
    requires parse(isoformat(iv.start_date)) == Ok(iv.start_date)
    requires parse(isoformat(iv.end_date)) == Ok(iv.end_date)
    ensures Construct(AsKwargs(Serialize(iv, isoformat)), parse) == Ok(iv)
  {
    var kwargs := AsKwargs(Serialize(iv, isoformat)).entries;
    assert kwargs[StartKey] == PyStr(isoformat(iv.start_date));
    assert kwargs[EndKey] == PyStr(isoformat(iv.end_date));
  }

  /** Keys other than the two fields do not change the result. */
  lemma ExtraKeysIgnored(kwargs: map<string, PyValue>, extra: string, v: PyValue, parse: string -> Outcome<DateTime>)
    requires extra != StartKey && extra != EndKey
    ensures Construct(PyDict(kwargs[extra := v]), parse) == Construct(PyDict(kwargs), parse)
  {
    assert FieldOf(kwargs[extra := v], StartKey, parse) == FieldOf(kwargs, StartKey, parse);
    assert FieldOf(kwargs[extra := v], EndKey, parse) == FieldOf(kwargs, EndKey, parse);
  }

  /** A missing end is reported as a required field; a missing start is reported first. */
  lemma MissingFieldReported(kwargs: map<string, PyValue>, parse: string -> Outcome<DateTime>)
    ensures StartKey !in kwargs ==> Construct(PyDict(kwargs), parse) == Raise(FieldRequired)
    ensures StartKey in kwargs && ValidateDate(kwargs[StartKey], parse).Ok? && EndKey !in kwargs ==>
      Construct(PyDict(kwargs), parse) == Raise(FieldRequired)
  {
  }
}
