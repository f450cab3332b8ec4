/**
 * Switch identifiers as they appear in the objectives, and Python's `str(...)`
 * that turns them into topology node names.
 */
module SwitchIds {

  /** A JSON switch reference: an integer or a string. */
  datatype SwitchRef = Num(n: int) | Name(s: string)

  predicate IsDigit(c: char) {
    '0' <= c <= '9'
  }

  function DigitValue(c: char): (d: nat)
    requires IsDigit(c)
    ensures d < 10
  {
    (c as int) - ('0' as int)
  }

  function DigitChar(d: nat): (c: char)
    requires d < 10
    ensures IsDigit(c) && (c as int) - ('0' as int) == d
  {
    (('0' as int) + d) as char
  }

  /** Decimal rendering of a natural number, most significant digit first. */
  function NatToDecimal(n: nat): (s: string)
    ensures |s| >= 1
    ensures forall i :: 0 <= i < |s| ==> IsDigit(s[i])
  {
    if n < 10 then [DigitChar(n)] else NatToDecimal(n / 10) + [DigitChar(n % 10)]
  }

  /** The number a string of decimal digits denotes. */
  function DecimalValue(s: string): nat
    requires forall i :: 0 <= i < |s| ==> IsDigit(s[i])
  {
    if s == [] then 0
    else DecimalValue(s[..|s| - 1]) * 10 + DigitValue(s[|s| - 1])
  }

  lemma {:induction false} DecimalRoundTrip(n: nat)
    ensures DecimalValue(NatToDecimal(n)) == n
  {
    var s := NatToDecimal(n);
    if n >= 10 {
      DecimalRoundTrip(n / 10);
      assert s[..|s| - 1] == NatToDecimal(n / 10);
    }
  }

  /** Python's `str` on a switch reference. */
  function Str(x: SwitchRef): string {
    match x
    case Num(n) => if n < 0 then "-" + NatToDecimal(-n) else NatToDecimal(n)
    case Name(s) => s
  }

  /** Distinct integer switch numbers give distinct node names. */
  lemma StrNumInjective(a: int, b: int)
    requires Str(Num(a)) == Str(Num(b))
    ensures a == b
  {
    var sa, sb := Str(Num(a)), Str(Num(b));
    // only a negative number's rendering starts with a sign
    assert (sa[0] == '-') == (a < 0) && (sb[0] == '-') == (b < 0);
    if a < 0 && b < 0 {
      assert sa[1..] == NatToDecimal(-a) && sb[1..] == NatToDecimal(-b);
      DecimalRoundTrip(-a);
      DecimalRoundTrip(-b);
    } else if a >= 0 && b >= 0 {
      DecimalRoundTrip(a);
      DecimalRoundTrip(b);
    }
  }
}
