/** Decimal notation. */
module Decimals {
  function Digit(n: nat): char
    requires n < 10
  {
    "0123456789"[n]
  }

  /** The notation of `n` without leading zeros. */
  function Digits(n: nat): string {
    if n < 10 then [Digit(n)] else Digits(n / 10) + [Digit(n % 10)]
  }

  predicate AllDigits(s: string) {
    forall i :: 0 <= i < |s| ==> '0' <= s[i] <= '9'
  }

  /** One or more digits without leading zeros. */
  predicate IsNumber(s: string) {
    && s != "" && AllDigits(s)
    && (|s| > 1 ==> s[0] != '0')
  }

  function Numeric(s: string): nat
    requires AllDigits(s)
  {
    if s == "" then 0 else 10 * Numeric(s[..|s| - 1]) + (s[|s| - 1] as int - '0' as int)
  }

  lemma DigitIs(n: nat)
    requires n < 10
    ensures '0' <= Digit(n) <= '9' && Digit(n) as int - '0' as int == n && (Digit(n) == '0' <==> n == 0)
  {
  }

  /** Every number has a notation. */
  lemma {:induction false} DigitsAreNumeric(n: nat)
    ensures IsNumber(Digits(n)) && Numeric(Digits(n)) == n
    ensures Digits(n)[0] == '0' <==> n == 0
  {
    if n < 10 {
      DigitIs(n);
      assert Digits(n)[..0] == "";
    } else {
      DigitsAreNumeric(n / 10);
      DigitIs(n % 10);
      assert Digits(n)[..|Digits(n)| - 1] == Digits(n / 10);
    }
  }

  lemma {:induction false} NumericPositive(s: string)
    requires IsNumber(s) && s != "0"
    ensures Numeric(s) > 0
  {
    if |s| > 1 {
      var init := s[..|s| - 1];
      assert init[0] == s[0];
      NumericPositive(init);
    } else {
      assert s[..0] == "" && s == [s[0]];
    }
  }

  /** And only one without leading zeros. */
  lemma {:induction false} NumericHasOneNotation(s: string)
    requires IsNumber(s)
    ensures Digits(Numeric(s)) == s
  {
    var init, last := s[..|s| - 1], s[|s| - 1];
    var d := last as int - '0' as int;
    assert s == init + [last] && 0 <= d < 10;
    DigitIs(d);
    if |s| > 1 {
      assert init[0] == s[0];
      NumericPositive(init);
      NumericHasOneNotation(init);
      assert Numeric(s) == 10 * Numeric(init) + d;
      assert Numeric(s) / 10 == Numeric(init) && Numeric(s) % 10 == d;
    } else {
      assert Numeric(init) == 0;
    }
    DigitFor(last, d);
  }

  lemma DigitFor(c: char, d: nat)
    requires '0' <= c <= '9' && d == c as int - '0' as int
    ensures Digit(d) == c
  {
  }
}
