/** Decimal numerals of arbitrary-precision integers, as written by
    `BigInteger.toString()` / `Integer.toString` and read by
    `new BigInteger(String)`. */
module Decimal {
  import opened Common

  predicate IsDigit(c: char) {
    '0' <= c <= '9'
  }

  predicate AllDigits(s: string) {
    forall i :: 0 <= i < |s| ==> IsDigit(s[i])
  }

  function DigitChar(d: nat): (c: char)
    requires d < 10
    ensures IsDigit(c)
  {
    ('0' as int + d) as char
  }

  function DigitValue(c: char): (d: nat)
    requires IsDigit(c)
    ensures d < 10
  {
    c as int - '0' as int
  }

  /** The value of a string of decimal digits, most significant first. */
  function DigitsValue(s: string): nat
    requires AllDigits(s)
  {
    if |s| == 0 then 0 else DigitsValue(s[..|s| - 1]) * 10 + DigitValue(s[|s| - 1])
  }

  /** The canonical numeral of a natural number: digits only, never empty,
      and no leading zero unless the number is zero. */
  function NatToString(n: nat): (s: string)
    ensures |s| > 0 && AllDigits(s)
    ensures s[0] == '0' ==> n == 0
    decreases n
  {
    if n < 10 then [DigitChar(n)] else NatToString(n / 10) + [DigitChar(n % 10)]
  }

  /** `BigInteger.toString()`: a minus sign for negative numbers, then the
      canonical numeral of the magnitude. */
  function IntToString(n: int): (s: string)
    ensures |s| > 0 && IsDigit(s[|s| - 1])
    ensures s[0] == '-' <==> n < 0
    ensures s[0] != '+'
  {
    if n < 0 then "-" + NatToString(-n) else NatToString(n)
  }

  /** `new BigInteger(s)`: an optional sign followed by at least one decimal
      digit; anything else throws NumberFormatException. */
  function ParseInt(s: string): Result<int> {
    if |s| == 0 then
      Err("NumberFormatException: zero length")
    else if s[0] == '-' || s[0] == '+' then
      var digits := s[1..];
      if |digits| == 0 || !AllDigits(digits) then Err("NumberFormatException: illegal digit")
      else if s[0] == '-' then Ok(0 - DigitsValue(digits) as int)
      else Ok(DigitsValue(digits))
    else if AllDigits(s) then
      Ok(DigitsValue(s))
    else
      Err("NumberFormatException: illegal digit")
  }

  /** Reading back a canonical numeral gives the number it was made from. */
  lemma {:induction false} NatToStringRoundTrip(n: nat)
    ensures DigitsValue(NatToString(n)) == n
    decreases n
  {
    if n >= 10 {
      var s := NatToString(n / 10);
      NatToStringRoundTrip(n / 10);
      var t := NatToString(n);
      assert t == s + [DigitChar(n % 10)];
      assert t[..|t| - 1] == s;
    }
  }

  /** The decimal round trip `new BigInteger(n.toString()) == n`, for every
      integer, zero and negatives included. */
  lemma ParseIntRoundTrip(n: int)
    ensures ParseInt(IntToString(n)) == Ok(n)
  {
    var s := IntToString(n);
    if n < 0 {
      NatToStringRoundTrip(-n);
      assert s[1..] == NatToString(-n);
    } else {
      NatToStringRoundTrip(n);
    }
  }

  /** A numeral is never accepted with nothing after its sign, and a
      leading zero or an explicit plus sign is accepted. */
  lemma ParseIntLeniency()
    ensures ParseInt("").Err? && ParseInt("-").Err? && ParseInt("+").Err?
    ensures ParseInt("+007") == Ok(7)
    ensures ParseInt("12n").Err?
  {
    assert "+007"[1..] == "007";
    assert "007"[..2] == "00" && "00"[..1] == "0";
    assert !IsDigit("12n"[2]);
  }
}
