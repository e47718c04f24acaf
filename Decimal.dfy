/** How a JavaScript template literal renders an integer: plain decimal digits,
    with a leading '-' for a negative value and no leading zeros. */
module Decimal {

  predicate IsDigit(c: char) {
    '0' <= c <= '9'
  }

  predicate AllDigits(s: string) {
    forall i | 0 <= i < |s| :: IsDigit(s[i])
  }

  function DigitChar(d: nat): (c: char)
    requires d < 10
    ensures IsDigit(c) && c as int - '0' as int == d
  {
    (d + '0' as int) as char
  }

  /** The decimal spelling of n, most significant digit first. */
  function NatToString(n: nat): string
    decreases n
  {
    if n < 10 then [DigitChar(n)] else NatToString(n / 10) + [DigitChar(n % 10)]
  }

  /** The number a string of decimal digits denotes (the reference reading). */
  function Value(s: string): nat
    requires AllDigits(s)
    decreases |s|
  {
    if s == [] then 0 else Value(s[..|s| - 1]) * 10 + (s[|s| - 1] as int - '0' as int)
  }

  /** `${n}` for an integer n. */
  function IntToString(i: int): string {
    if i < 0 then "-" + NatToString(-i) else NatToString(i)
  }

  /** The spelling is a non-empty digit string, reads back as n, and has no leading zero. */
  lemma {:induction false} NatToStringReadsBack(n: nat)
    ensures |NatToString(n)| >= 1 && AllDigits(NatToString(n))
    ensures Value(NatToString(n)) == n
    ensures NatToString(n)[0] == '0' ==> n == 0
  {
    if n >= 10 {
      NatToStringReadsBack(n / 10);
      var s := NatToString(n);
      assert s[..|s| - 1] == NatToString(n / 10);
      assert s[0] == NatToString(n / 10)[0];
    }
  }

  /** A negative integer is spelled with a minus sign followed by its magnitude. */
  lemma IntToStringSign(i: int)
    ensures |IntToString(i)| >= 1
    ensures (IntToString(i)[0] == '-') <==> i < 0
    ensures i < 0 ==> IntToString(i)[1..] == NatToString(-i)
  {
    if i >= 0 {
      NatToStringReadsBack(i);
    }
  }
}
