/** Decimal numerals, as `String(n)` writes a natural number. */
module Decimals {
  function Digit(d: nat): char
    requires d < 10
  {
    "0123456789"[d]
  }

  function Decimal(n: nat): string {
    if n < 10 then [Digit(n)] else Decimal(n / 10) + [Digit(n % 10)]
  }

  lemma DigitInjective(a: nat, b: nat)
    requires a < 10 && b < 10 && Digit(a) == Digit(b)
    ensures a == b
  {
  }

  lemma {:induction false} DecimalNotEmpty(n: nat)
    ensures |Decimal(n)| >= 1 && (n >= 10 ==> |Decimal(n)| >= 2)
  {
    if n >= 10 { DecimalNotEmpty(n / 10); }
  }

  lemma {:induction false} DecimalInjective(a: nat, b: nat)
    requires Decimal(a) == Decimal(b)
    ensures a == b
  {
    DecimalNotEmpty(a);
    DecimalNotEmpty(b);
    var last := |Decimal(a)| - 1;
    if a < 10 && b < 10 {
      DigitInjective(a, b);
    } else if a >= 10 && b >= 10 {
      assert Decimal(a)[last] == Digit(a % 10) && Decimal(b)[last] == Digit(b % 10);
      assert Decimal(a)[..last] == Decimal(a / 10) && Decimal(b)[..last] == Decimal(b / 10);
      DigitInjective(a % 10, b % 10);
      DecimalInjective(a / 10, b / 10);
    }
  }
}
