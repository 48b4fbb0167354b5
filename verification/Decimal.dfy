/** Decimal numerals as Python's str() writes a natural number. */
module Decimal {

  const DIGITS := "0123456789"

  function Numeral(n: nat): (s: string)
    ensures s != []
    ensures forall i :: 0 <= i < |s| ==> s[i] in DIGITS
  {
    if n < 10 then [DIGITS[n]] else Numeral(n / 10) + [DIGITS[n % 10]]
  }

  /** Reads a numeral back. */
  function ValueOf(s: string): nat {
    if s == [] then 0
    else 10 * ValueOf(s[..|s| - 1]) + DigitValue(s[|s| - 1])
  }

  function DigitValue(c: char): nat {
    if '0' <= c <= '9' then (c - '0') as nat else 0
  }

  lemma {:induction false} NumeralValue(n: nat)
    ensures ValueOf(Numeral(n)) == n
  {
    if n >= 10 {
      NumeralValue(n / 10);
      assert Numeral(n)[..|Numeral(n)| - 1] == Numeral(n / 10);
    }
  }

  lemma NumeralInjective(m: nat, n: nat)
    requires Numeral(m) == Numeral(n)
    ensures m == n
  {
    NumeralValue(m);
    NumeralValue(n);
  }

  lemma {:induction false} NumeralGrows(m: nat, n: nat)
    requires m <= n
    ensures |Numeral(m)| <= |Numeral(n)|
  {
    if m >= 10 {
      NumeralGrows(m / 10, n / 10);
    }
  }

  function Pow10(k: nat): nat {
    if k == 0 then 1 else 10 * Pow10(k - 1)
  }

  lemma {:induction false} NumeralFits(n: nat, k: nat)
    requires 0 < k && n < Pow10(k)
    ensures |Numeral(n)| <= k
  {
    if n >= 10 {
      NumeralFits(n / 10, k - 1);
    }
  }
}
