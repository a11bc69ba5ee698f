/** Integer text conversions: Python's `int(text, base)` on the digit
    strings the decoder produces, and `int.__repr__` used by the encoder. */
module Numbers {
  import opened Wrappers

  /** A digit of any base up to 36, letters in either case. */
  function DigitValue(c: char): Option<nat> {
    if '0' <= c <= '9' then Some(c as int - '0' as int)
    else if 'a' <= c <= 'z' then Some(c as int - 'a' as int + 10)
    else if 'A' <= c <= 'Z' then Some(c as int - 'A' as int + 10)
    else None
  }

  /** The value of a digit string read most significant digit first, or
      `None` when some character is not a digit of `base`. */
  function DigitsValue(ds: string, base: nat): Option<nat>
    decreases |ds|
  {
    if |ds| == 0 then Some(0)
    else
      match (DigitsValue(ds[..|ds| - 1], base), DigitValue(ds[|ds| - 1]))
      case (Some(high), Some(d)) => if d < base then Some(high * base + d) else None
      case _ => None
  }

  /** `int(s, base)`: an optional sign and at least one digit of the base;
      `None` stands for the ValueError. */
  function ParseInt(s: string, base: nat): Option<int> {
    var digits := if |s| > 0 && (s[0] == '-' || s[0] == '+') then s[1..] else s;
    if |digits| == 0 then None
    else
      match DigitsValue(digits, base)
      case Some(n) =>
        var value: int := if s[0] == '-' then 0 - (n as int) else n;
        Some(value)
      case None => None
  }

  predicate IsDecimalDigit(c: char) {
    '0' <= c <= '9'
  }

  function DecimalDigit(d: nat): (c: char)
    requires d < 10
  {
    ('0' as int + d) as char
  }

  function NatToDecimal(n: nat): string
    decreases n
  {
    if n < 10 then [DecimalDigit(n)] else NatToDecimal(n / 10) + [DecimalDigit(n % 10)]
  }

  /** `int.__repr__`: a minus sign for negatives, then the digits. */
  function IntToDecimal(i: int): string {
    if i < 0 then "-" + NatToDecimal(-i) else NatToDecimal(i)
  }

  lemma {:induction false} NatToDecimalValue(n: nat)
    ensures DigitsValue(NatToDecimal(n), 10) == Some(n)
  {
    var s := NatToDecimal(n);
    if n < 10 {
      assert s[..|s| - 1] == "";
    } else {
      NatToDecimalValue(n / 10);
      assert s[..|s| - 1] == NatToDecimal(n / 10);
      assert s[|s| - 1] == DecimalDigit(n % 10);
    }
  }

  /** The decimal text is canonical: only digits, the first one `0` only
      for zero itself. */
  lemma {:induction false} NatToDecimalDigits(n: nat)
    ensures |NatToDecimal(n)| > 0
    ensures forall j :: 0 <= j < |NatToDecimal(n)| ==> IsDecimalDigit(NatToDecimal(n)[j])
    ensures NatToDecimal(n)[0] == '0' <==> n == 0
  {
    if n >= 10 {
      NatToDecimalDigits(n / 10);
    }
  }

  /** The shape of `int.__repr__`: a `-` exactly for negatives, then
      canonical digits, so no `.`, `e`, `E` or `_` ever appears. */
  lemma IntToDecimalShape(i: int)
    ensures var s := IntToDecimal(i);
      && |s| > 0
      && (s[0] == '-' <==> i < 0)
      && (forall j :: (if i < 0 then 1 else 0) <= j < |s| ==> IsDecimalDigit(s[j]))
      && (s[if i < 0 then 1 else 0] == '0' <==> i == 0)
  {
    NatToDecimalDigits(if i < 0 then -i else i);
  }

  /** Reading back the decimal text of an int gives the int. */
  lemma DecimalRoundTrip(i: int)
    ensures ParseInt(IntToDecimal(i), 10) == Some(i)
  {
    var n: nat := if i < 0 then -i else i;
    NatToDecimalValue(n);
    NatToDecimalDigits(n);
    var s := IntToDecimal(i);
    if i < 0 {
      assert s[1..] == NatToDecimal(n);
    }
  }
}
