/** Decimal digit strings, shared by the JavaScript and the Python parts of the model. */
module Decimal {

  predicate IsDigit(c: char) {
    '0' <= c <= '9'
  }

  predicate AllDigits(s: string) {
    forall i :: 0 <= i < |s| ==> IsDigit(s[i])
  }

  function DigitValue(c: char): nat {
    if IsDigit(c) then c as int - '0' as int else 0
  }

  /** The number a string of decimal digits denotes (most significant digit first). */
  function DecimalValue(s: string): nat {
    if s == [] then 0 else 10 * DecimalValue(s[..|s| - 1]) + DigitValue(s[|s| - 1])
  }

  function DigitChar(d: nat): char
    requires d < 10
  {
    ('0' as int + d) as char
  }

  /** The canonical decimal spelling of a natural number: no sign, no leading zero. */
  function NatToDecimal(n: nat): (r: string)
    ensures |r| > 0 && AllDigits(r)
    ensures r[0] == '0' ==> r == "0"
  {
    if n < 10 then [DigitChar(n)] else NatToDecimal(n / 10) + [DigitChar(n % 10)]
  }

  /** Reading back what NatToDecimal wrote yields the same number. */
  lemma {:induction false} DecimalRoundTrip(n: nat)
    ensures DecimalValue(NatToDecimal(n)) == n
  {
    var r := NatToDecimal(n);
    if n >= 10 {
      DecimalRoundTrip(n / 10);
      assert r[..|r| - 1] == NatToDecimal(n / 10);
    }
  }
}
