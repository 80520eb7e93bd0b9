/**
 The two JavaScript conversions the form-version arithmetic rests on:
 `Number(v)` applied to a stored version string (or `null`) and `String(n)`
 applied to the incremented number.
 */
module JsNumbers {
  import opened Lists

  /** A JavaScript number as far as version arithmetic needs one */
  datatype JsNumber = Finite(n: nat) | NaN

  predicate IsDigit(c: char) {
    '0' <= c <= '9'
  }

  predicate IsDigits(s: string) {
    forall i :: 0 <= i < |s| ==> IsDigit(s[i])
  }

  function DigitValue(c: char): nat
    requires IsDigit(c)
  {
    (c as int - '0' as int) as nat
  }

  function DigitChar(d: nat): (c: char)
    requires d < 10
    ensures IsDigit(c) && DigitValue(c) == d
  {
    ('0' as int + d) as char
  }

  /** Decimal value of a digit string, most significant digit first */
  function DigitsValue(s: string): nat
    requires IsDigits(s)
  {
    if |s| == 0 then 0
    else DigitsValue(s[..|s| - 1]) * 10 + DigitValue(s[|s| - 1])
  }

  /** `Number(v)` where `None` is `null`, for the versions the routes write:
      the empty string and `null` give 0 and a string of decimal digits gives
      its value. Every other string is mapped to `NaN`, unlike JavaScript,
      which also parses decimals, signs, exponents, hexadecimal and
      surrounding white space. */
  function ToNumber(v: Option<string>): (x: JsNumber)
    ensures v.None? ==> x == Finite(0)
    ensures v.Some? && v.value != "" && !IsDigits(v.value) ==> x == NaN
    ensures v.Some? && IsDigits(v.value) ==> x == Finite(DigitsValue(v.value))
  {
    match v
    case None => Finite(0)
    case Some(s) =>
      if IsDigits(s) then Finite(DigitsValue(s)) else NaN
  }

  /** `x + 1` */
  function Increment(x: JsNumber): JsNumber {
    match x
    case Finite(n) => Finite(n + 1)
    case NaN => NaN
  }

  /** `String(n)` for a natural number: its shortest decimal rendering */
  function NatToString(n: nat): (s: string)
    ensures |s| > 0 && IsDigits(s)
    ensures |s| > 1 ==> s[0] != '0'
    decreases n
  {
    if n < 10 then [DigitChar(n)]
    else NatToString(n / 10) + [DigitChar(n % 10)]
  }

  /** `String(x)` */
  function NumberToString(x: JsNumber): string {
    match x
    case Finite(n) => NatToString(n)
    case NaN => "NaN"
  }

  /** `String(v)` of a stored string field, where `None` is `null` */
  function NullableToString(v: Option<string>): string {
    match v
    case Some(text) => text
    case None => "null"
  }

  /** Reading back what `String` wrote gives the number again */
  lemma {:induction false} NatToStringRoundTrip(n: nat)
    ensures DigitsValue(NatToString(n)) == n
    ensures ToNumber(Some(NatToString(n))) == Finite(n)
    decreases n
  {
    var s := NatToString(n);
    if n >= 10 {
      NatToStringRoundTrip(n / 10);
      assert s[..|s| - 1] == NatToString(n / 10);
    }
  }
}
