/** The two JavaScript conversions the repository relies on: `Number(x)`, applied to
    a numeric argument or to a cursor string, and `String(n)`, applied to a row id. */
module JsConversions {

  /** A JavaScript number, as far as this model needs one: the integral finite values
      and the non-finite ones. Fractional values are not represented. */
  datatype Number = Int(value: int) | NaN | PosInfinity | NegInfinity {
    /** `Number.isFinite` */
    predicate IsFinite() { Int? }

    /** `Number.isInteger` */
    predicate IsInteger() { Int? }
  }

  predicate IsDigit(c: char) { '0' <= c <= '9' }

  predicate AllDigits(s: string) {
    forall i :: 0 <= i < |s| ==> IsDigit(s[i])
  }

  predicate AllDigitsFrom(s: string, start: nat) {
    forall i :: start <= i < |s| ==> IsDigit(s[i])
  }

  function DigitValue(c: char): (d: nat)
    requires IsDigit(c)
    ensures d < 10
  {
    c as int - '0' as int
  }

  function DigitChar(d: nat): (c: char)
    requires d < 10
    ensures IsDigit(c) && DigitValue(c) == d
  {
    ('0' as int + d) as char
  }

  /** The value of a string of decimal digits, most significant first. */
  function DigitsValue(s: string): nat
    requires AllDigits(s)
  {
    if |s| == 0 then 0 else DigitsValue(s[..|s| - 1]) * 10 + DigitValue(s[|s| - 1])
  }

  /** The magnitude of a sign followed by decimal digits. */
  function SignedValue(s: string): nat
    requires |s| > 1 && AllDigitsFrom(s, 1)
  {
    assert AllDigits(s[1..]) by {
      forall i | 0 <= i < |s| - 1 ensures IsDigit(s[1..][i]) { assert s[1..][i] == s[i + 1]; }
    }
    DigitsValue(s[1..])
  }

  /** `String(n)` for a non-negative integer: its decimal digits without leading zeros. */
  function NatToString(n: nat): (s: string)
    ensures |s| > 0 && AllDigits(s)
    ensures s[0] == '0' ==> n == 0
  {
    if n < 10 then [DigitChar(n)] else NatToString(n / 10) + [DigitChar(n % 10)]
  }

  /** A decimal numeral as `String` produces it: digits, and no leading zero unless it is "0". */
  predicate IsCanonicalNumeral(s: string) {
    |s| > 0 && AllDigits(s) && (s[0] == '0' ==> |s| == 1)
  }

  /** `Number(s)` for a string: the empty string reads as 0, an optionally signed run of
      decimal digits as its value, the spellings of Infinity as infinities, and anything
      else as NaN. */
  function ParseNumber(s: string): Number {
    if s == "" then Int(0)
    else if AllDigits(s) then Int(DigitsValue(s))
    else if |s| > 1 && s[0] == '+' && AllDigitsFrom(s, 1) then Int(SignedValue(s))
    else if |s| > 1 && s[0] == '-' && AllDigitsFrom(s, 1) then Int(0 - SignedValue(s))
    else if s == "Infinity" || s == "+Infinity" then PosInfinity
    else if s == "-Infinity" then NegInfinity
    else NaN
  }

  /** Reading back the digits `NatToString` writes gives the number again. */
  lemma {:induction false} DigitsValueOfNatToString(n: nat)
    ensures DigitsValue(NatToString(n)) == n
  {
    if n >= 10 {
      var s := NatToString(n);
      var prefix := NatToString(n / 10);
      assert s == prefix + [DigitChar(n % 10)];
      assert s[..|s| - 1] == prefix;
      DigitsValueOfNatToString(n / 10);
    }
  }

  /** `Number(String(n)) == n` for every non-negative integer. */
  lemma ParseNatToString(n: nat)
    ensures ParseNumber(NatToString(n)) == Int(n)
  {
    DigitsValueOfNatToString(n);
  }

  lemma {:induction false} LeadingDigitBound(s: string)
    requires IsCanonicalNumeral(s) && s[0] != '0'
    ensures DigitsValue(s) >= 1
  {
    if |s| > 1 {
      var prefix := s[..|s| - 1];
      assert prefix[0] == s[0];
      LeadingDigitBound(prefix);
    }
  }

  /** The other direction: a canonical numeral is what `String` writes for its value. */
  lemma {:induction false} NatToStringOfDigitsValue(s: string)
    requires IsCanonicalNumeral(s)
    ensures NatToString(DigitsValue(s)) == s
  {
    if |s| > 1 {
      var prefix := s[..|s| - 1];
      assert prefix[0] == s[0];
      LeadingDigitBound(s);
      LeadingDigitBound(prefix);
      NatToStringOfDigitsValue(prefix);
      var n := DigitsValue(s);
      assert n / 10 == DigitsValue(prefix) && n % 10 == DigitValue(s[|s| - 1]);
      assert s == prefix + [s[|s| - 1]];
    }
  }
}
