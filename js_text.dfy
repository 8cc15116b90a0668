/**
 * The JavaScript string operations the row form relies on: `String.prototype.trim`,
 * the UTF-16 `length` of a string, and the two regular expressions `/^-?\d+$/` and
 * `/^-?\d+(\.\d+)?$/` of `validateField`.
 */
module JsText {
  import opened Decimal

  /** The ECMAScript WhiteSpace and LineTerminator code points: what `trim` strips. */
  predicate IsJsWhitespace(c: char) {
    || c == '\t' || c == '\n' || c == '\U{000B}' || c == '\U{000C}' || c == '\r'
    || c == ' ' || c == '\U{00A0}' || c == '\U{1680}' || ('\U{2000}' <= c <= '\U{200A}')
    || c == '\U{2028}' || c == '\U{2029}' || c == '\U{202F}' || c == '\U{205F}'
    || c == '\U{3000}' || c == '\U{FEFF}'
  }

  predicate AllWhitespace(s: string) {
    forall i :: 0 <= i < |s| ==> IsJsWhitespace(s[i])
  }

  /** Drops leading whitespace: the result is the suffix of `s` that starts at its first non-blank. */
  function TrimStart(s: string): (r: string)
    ensures |r| <= |s| && r == s[|s| - |r|..]
    ensures AllWhitespace(s[..|s| - |r|])
    ensures r == [] || !IsJsWhitespace(r[0])
  {
    if s != [] && IsJsWhitespace(s[0]) then TrimStart(s[1..]) else s
  }

  /** Drops trailing whitespace: the result is the prefix of `s` that ends at its last non-blank. */
  function TrimEnd(s: string): (r: string)
    ensures |r| <= |s| && r == s[..|r|]
    ensures AllWhitespace(s[|r|..])
    ensures r == [] || !IsJsWhitespace(r[|r| - 1])
  {
    if s != [] && IsJsWhitespace(s[|s| - 1]) then TrimEnd(s[..|s| - 1]) else s
  }

  /** `r` occurs in `s` starting at index `i`. */
  predicate InfixAt(r: string, s: string, i: int) {
    0 <= i <= |s| - |r| && r == s[i..i + |r|]
  }

  /**
   * `s.trim()`: the infix of `s` between its leading and its trailing whitespace. Only
   * white space is cut on either side, and neither end of what is left is white space,
   * which fixes the result.
   */
  function Trim(s: string): (r: string)
    ensures exists i :: InfixAt(r, s, i) && AllWhitespace(s[..i]) && AllWhitespace(s[i + |r|..])
    ensures r == [] || (!IsJsWhitespace(r[0]) && !IsJsWhitespace(r[|r| - 1]))
  {
    var t := TrimStart(s);
    var r := TrimEnd(t);
    PrefixOfSuffix(s, t, r);
    var i := |s| - |t|;
    assert s[i + |r|..] == t[|r|..];
    r
  }

  /** A prefix of a suffix of `s` occurs in `s` where the suffix starts, and starts as the suffix does. */
  lemma PrefixOfSuffix(s: string, t: string, r: string)
    requires |t| <= |s| && t == s[|s| - |t|..]
    requires |r| <= |t| && r == t[..|r|]
    ensures InfixAt(r, s, |s| - |t|)
    ensures r != [] ==> r[0] == t[0]
  {
  }

  /** `s.trim() === ""` exactly when every character of `s` is whitespace (so also for ""). */
  lemma TrimEmptyIff(s: string)
    ensures Trim(s) == "" <==> AllWhitespace(s)
  {
    var r := Trim(s);
    var i :| InfixAt(r, s, i) && AllWhitespace(s[..i]) && AllWhitespace(s[i + |r|..]);
    if r == "" {
      forall k | 0 <= k < |s| ensures IsJsWhitespace(s[k]) {
        if k < i { assert s[k] == s[..i][k]; } else { assert s[k] == s[i..][k - i]; }
      }
    } else {
      assert r[0] == s[i];
    }
  }

  /** How many UTF-16 code units a code point takes. */
  function Utf16Units(c: char): nat {
    if c as int < 0x1_0000 then 1 else 2
  }

  /** JavaScript's `s.length`: UTF-16 code units, so a character outside the BMP counts twice. */
  function Utf16Length(s: string): (n: nat)
    ensures |s| <= n <= 2 * |s|
    ensures n == |s| <==> forall i :: 0 <= i < |s| ==> s[i] as int < 0x1_0000
  {
    if s == [] then 0 else Utf16Units(s[0]) + Utf16Length(s[1..])
  }

  /** `s.length === 1` holds exactly for a single character of the Basic Multilingual Plane. */
  lemma {:induction false} SingleCodeUnit(s: string)
    ensures Utf16Length(s) == 1 <==> |s| == 1 && s[0] as int < 0x1_0000
  {
    if |s| == 1 {
      assert s[1..] == [];
    }
  }

  // ---------------------------------------------------------------------------
  // The two regular expressions, first as the languages they denote ...

  predicate OptionalMinus(s: string) {
    s == "" || s == "-"
  }

  /** `\d+`: one or more ASCII digits (`\d` without the `u` flag). */
  predicate SomeDigits(s: string) {
    |s| > 0 && AllDigits(s)
  }

  /** `(\.\d+)?` */
  predicate OptionalFraction(s: string) {
    s == "" || (s[0] == '.' && SomeDigits(s[1..]))
  }

  /** `s` splits at `a` into the parts `-?` and `\d+` of `/^-?\d+$/`. */
  ghost predicate IntegerSplit(s: string, a: int) {
    0 <= a <= |s| && OptionalMinus(s[..a]) && SomeDigits(s[a..])
  }

  /** The strings `/^-?\d+$/` matches. */
  ghost predicate IntegerLanguage(s: string) {
    exists a :: IntegerSplit(s, a)
  }

  /** `s` splits at `a` and `b` into the parts `-?`, `\d+` and `(\.\d+)?` of `/^-?\d+(\.\d+)?$/`. */
  ghost predicate RealSplit(s: string, a: int, b: int) {
    0 <= a <= b <= |s| && OptionalMinus(s[..a]) && SomeDigits(s[a..b]) && OptionalFraction(s[b..])
  }

  /** The strings `/^-?\d+(\.\d+)?$/` matches. */
  ghost predicate RealLanguage(s: string) {
    exists a, b :: RealSplit(s, a, b)
  }

  // ... then as the left-to-right scan `RegExp.prototype.test` performs.

  function SignLength(s: string): (n: nat)
    ensures n <= |s| && OptionalMinus(s[..n])
  {
    if |s| > 0 && s[0] == '-' then 1 else 0
  }

  /** The length of the longest run of digits at the start of `s`. */
  function DigitRun(s: string): (n: nat)
    ensures n <= |s| && AllDigits(s[..n])
    ensures n == |s| || !IsDigit(s[n])
  {
    if s != [] && IsDigit(s[0]) then 1 + DigitRun(s[1..]) else 0
  }

  /** `/^-?\d+$/.test(s)` */
  predicate MatchesInteger(s: string) {
    var a := SignLength(s);
    var n := DigitRun(s[a..]);
    n > 0 && a + n == |s|
  }

  /** `/^-?\d+(\.\d+)?$/.test(s)` */
  predicate MatchesReal(s: string) {
    var a := SignLength(s);
    var b := a + DigitRun(s[a..]);
    b > a && (b == |s| || (s[b] == '.' && SomeDigits(s[b + 1..])))
  }

  /** A digit run is determined by where the digits stop. */
  lemma DigitRunExact(s: string, k: nat)
    requires k <= |s| && AllDigits(s[..k]) && (k == |s| || !IsDigit(s[k]))
    ensures DigitRun(s) == k
  {
    var n := DigitRun(s);
    forall j | 0 <= j < k
      ensures IsDigit(s[j])
    {
      assert s[j] == s[..k][j];
    }
    forall j | 0 <= j < n
      ensures IsDigit(s[j])
    {
      assert s[j] == s[..n][j];
    }
  }

  /** The only split of a match puts the minus sign, if any, in front. */
  lemma SignSplitIsScanned(s: string, a: int)
    requires 0 <= a <= |s| && OptionalMinus(s[..a]) && |s| > a && IsDigit(s[a])
    ensures a == SignLength(s)
  {
    if a == 1 {
      assert s[0] == s[..a][0];
    }
  }

  /** The scan accepts exactly the language of `/^-?\d+$/`. */
  lemma IntegerMatcherCorrect(s: string)
    ensures MatchesInteger(s) <==> IntegerLanguage(s)
  {
    var a := SignLength(s);
    if MatchesInteger(s) {
      assert s[a..] == s[a..][..DigitRun(s[a..])];
      assert IntegerSplit(s, a);
    }
    if IntegerLanguage(s) {
      var a' :| IntegerSplit(s, a');
      assert s[a..][0] == s[a];
      SignSplitIsScanned(s, a');
      assert s[a..][..|s| - a] == s[a..];
      DigitRunExact(s[a..], |s| - a);
    }
  }

  /** Every string the real scan accepts splits as the second regular expression demands. */
  lemma RealMatcherSound(s: string)
    requires MatchesReal(s)
    ensures RealSplit(s, SignLength(s), SignLength(s) + DigitRun(s[SignLength(s)..]))
  {
    var a := SignLength(s);
    var b := a + DigitRun(s[a..]);
    assert s[a..b] == s[a..][..DigitRun(s[a..])];
  }

  /** A split of the second regular expression is the one the scan finds. */
  lemma RealMatcherComplete(s: string, a': int, b': int)
    requires RealSplit(s, a', b')
    ensures MatchesReal(s)
  {
    assert s[a'..b'][0] == s[a'];
    SignSplitIsScanned(s, a');
    var a := SignLength(s);
    assert s[a..][..b' - a] == s[a..b'];
    if b' < |s| {
      assert s[b'] == s[b'..][0];
      assert s[a..][b' - a] == s[b'];
    }
    DigitRunExact(s[a..], b' - a);
  }

  /** The scan accepts exactly the language of `/^-?\d+(\.\d+)?$/`. */
  lemma RealMatcherCorrect(s: string)
    ensures MatchesReal(s) <==> RealLanguage(s)
  {
    if MatchesReal(s) {
      RealMatcherSound(s);
    }
    if RealLanguage(s) {
      var a', b' :| RealSplit(s, a', b');
      RealMatcherComplete(s, a', b');
    }
  }

  /** Every string the integer rule accepts is accepted by the real rule. */
  lemma IntegerIsReal(s: string)
    ensures MatchesInteger(s) ==> MatchesReal(s)
  {
    if MatchesInteger(s) {
      IntegerMatcherCorrect(s);
      var a :| IntegerSplit(s, a);
      assert s[a..|s|] == s[a..];
      assert s[|s|..] == "";
      assert RealSplit(s, a, |s|);
      RealMatcherCorrect(s);
    }
  }
}
