/** Products and quotients, minima and maxima of whole numbers. */
module Arithmetic {

  function Min(a: int, b: int): int { if a < b then a else b }
  function Max(a: int, b: int): int { if a < b then b else a }

  lemma {:induction false} ProductGrows(a: nat, b: nat, m: nat)
    requires a < b
    ensures a * m + m <= b * m
  {
    assert b * m == (b - 1) * m + m;
    if a + 1 < b { ProductGrows(a, b - 1, m); }
  }

  lemma {:induction false} Quotient(q: nat, p: nat, r: nat)
    requires r < p
    ensures (q * p + r) / p == q
  {
    var d := (q * p + r) / p;
    assert d * p <= q * p + r < d * p + p by { QuotientBounds(q * p + r, p); }
    if d < q { ProductGrows(d, q, p); }
    if q < d { ProductGrows(q, d, p); }
  }

  lemma {:induction false} QuotientBounds(n: nat, p: nat)
    requires p > 0
    ensures n / p * p <= n < n / p * p + p
    ensures n == n / p * p + n % p
  {
    assert n == n / p * p + n % p;
  }
}
