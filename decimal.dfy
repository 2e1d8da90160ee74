/** Decimal rendering of integers, as `fmt.Sprintf("%d", n)` produces it. */
module Decimal {

  /** The decimal digit character for `d`. */
  function Digit(d: nat): (c: char)
    requires d < 10
    ensures '0' <= c <= '9'
    ensures c as int - '0' as int == d
  {
    ('0' as int + d) as char
  }

  /** Most significant digit first, no leading zeros, "0" for zero. */
  function NatToDecimal(n: nat): (s: string)
    ensures |s| >= 1
    ensures n < 10 <==> |s| == 1
    ensures forall i :: 0 <= i < |s| ==> '0' <= s[i] <= '9'
    ensures |s| > 1 ==> s[0] != '0'
    decreases n
  {
    if n < 10 then [Digit(n)] else NatToDecimal(n / 10) + [Digit(n % 10)]
  }

  /** A leading '-' for negative numbers, as Go's %d verb writes them. */
  function IntToDecimal(n: int): string
  {
    if n < 0 then "-" + NatToDecimal(-n) else NatToDecimal(n)
  }

  /** Two naturals with the same decimal text are equal. */
  lemma {:induction false} NatToDecimalInjective(a: nat, b: nat)
    requires NatToDecimal(a) == NatToDecimal(b)
    ensures a == b
  {
    var s := NatToDecimal(a);
    if a < 10 || b < 10 {
      assert a < 10 && b < 10;
      assert Digit(a) == s[0] == Digit(b);
    } else {
      var n := |s|;
      assert s == NatToDecimal(a / 10) + [Digit(a % 10)];
      assert s == NatToDecimal(b / 10) + [Digit(b % 10)];
      assert Digit(a % 10) == s[n - 1] == Digit(b % 10);
      assert NatToDecimal(a / 10) == s[..n - 1] == NatToDecimal(b / 10);
      NatToDecimalInjective(a / 10, b / 10);
    }
  }

  /** Two integers with the same %d text are equal. */
  lemma IntToDecimalInjective(a: int, b: int)
    requires IntToDecimal(a) == IntToDecimal(b)
    ensures a == b
  {
    var s := IntToDecimal(a);
    // the sign character tells negative from non-negative
    assert (s[0] == '-') == (a < 0);
    assert (s[0] == '-') == (b < 0);
    if a < 0 {
      assert NatToDecimal(-a) == s[1..] == NatToDecimal(-b);
      NatToDecimalInjective(-a, -b);
    } else {
      NatToDecimalInjective(a, b);
    }
  }
}
