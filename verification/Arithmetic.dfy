/** Words of 32 bits, and division with remainder, for which the solver needs its steps spelt out. */
module Arithmetic {
  const TWO_32: nat := 0x1_0000_0000

  lemma TimesMonotone(base: nat, x: nat, y: nat)
    requires x <= y
    ensures base * x <= base * y
    ensures x > 0 ==> base * x == base * (x - 1) + base
  {
  }

  lemma QuotientUnique(base: nat, q: nat, r: nat, high: nat, low: nat)
    requires r < base && low < base && base * q + r == base * high + low
    ensures q == high && r == low
  {
    if q < high {
      TimesMonotone(base, q + 1, high);
    } else if high < q {
      TimesMonotone(base, high + 1, q);
    }
  }

  /** Quotient and remainder, recognised. */
  lemma Remainder(a: nat, m: nat, d: nat, r: nat)
    requires r < m && a == m * d + r
    ensures a % m == r && a / m == d
  {
    QuotientUnique(m, a / m, a % m, d, r);
  }
}
