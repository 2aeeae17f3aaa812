/** Java's decimal rendering of an int, as string concatenation prints a line number. */
module Decimal {
  function DigitChar(d: nat): char
    requires d < 10
  {
    "0123456789"[d]
  }

  /** Decimal digits of a non-negative number, as string concatenation prints it. */
  function NatToDecimal(n: nat): (s: string)
    ensures |s| > 0
    ensures forall i | 0 <= i < |s| :: '0' <= s[i] <= '9'
    decreases n
  {
    if n < 10 then [DigitChar(n)] else NatToDecimal(n / 10) + [DigitChar(n % 10)]
  }

  /** The number a string of decimal digits denotes. */
  function DecimalValue(s: string): nat
    requires forall i | 0 <= i < |s| :: '0' <= s[i] <= '9'
  {
    if s == [] then 0 else DecimalValue(s[..|s| - 1]) * 10 + (s[|s| - 1] as int - '0' as int)
  }

  /** The digits printed for a line number read back as that number, with no leading zero. */
  lemma {:induction false} NatToDecimalRoundTrip(n: nat)
    ensures DecimalValue(NatToDecimal(n)) == n
    ensures NatToDecimal(n)[0] == '0' ==> n == 0
    decreases n
  {
    var s := NatToDecimal(n);
    if n >= 10 {
      NatToDecimalRoundTrip(n / 10);
      assert s[..|s| - 1] == NatToDecimal(n / 10);
    }
  }

  /** An int as string concatenation prints it: a '-' before the digits when negative (a
      native frame reports line -2). */
  function IntToDecimal(i: int): (s: string)
  {
    if i < 0 then "-" + NatToDecimal(-i) else NatToDecimal(i)
  }

  /** A line number prints as its digits, after a '-' exactly when it is negative. */
  lemma IntToDecimalSign(i: int)
    ensures var s := IntToDecimal(i);
      |s| > 0 && (s[0] == '-' <==> i < 0)
  {
    if i >= 0 {
      var s := NatToDecimal(i);
      assert '0' <= s[0] <= '9';
    }
  }

  /** After the sign, the digits read back as the line number's magnitude. */
  lemma IntToDecimalReadsBack(i: int)
    ensures var s := IntToDecimal(i);
      && (i < 0 ==> |s| > 1 && DecimalValue(s[1..]) == -i)
      && (i >= 0 ==> DecimalValue(s) == i)
  {
    if i < 0 {
      NatToDecimalRoundTrip(-i);
      var digits := NatToDecimal(-i);
      assert ("-" + digits)[1..] == digits;
    } else {
      NatToDecimalRoundTrip(i);
    }
  }
}
