/** Quotients and products that the solver does not find by itself. */
module Arithmetic {
  function Min(a: int, b: int): int {
    if a <= b then a else b
  }

  function Max(a: int, b: int): int {
    if a >= b then a else b
  }

  /** Quotient and remainder are the only such pair. */
  lemma Divided(n: int, q: int, d: nat, r: nat)
    requires r < d && n == q * d + r
    ensures n / d == q && n % d == r
  {
    var e := n / d - q;
    Distribute(n / d, -q, d);
    if e >= 1 { Grows(1, e, d); }
    if e <= -1 { Grows(1, -e, d); }
  }

  lemma Distribute(a: int, b: int, c: int)
    ensures (a + b) * c == a * c + b * c
  {}

  lemma Regroup(a: int, b: int, c: int)
    ensures a * (b * c) == (a * c) * b
  {}

  lemma Grows(a: nat, b: nat, c: nat)
    requires a <= b
    ensures a * c <= b * c
  {}

  lemma DivMod(n: int, d: nat)
    requires d > 0
    ensures n == (n / d) * d + n % d && 0 <= n % d < d
  {}

  lemma Commutes(a: int, b: int)
    ensures a * b == b * a
  {}

  /** A place in one of n rows of size d. */
  lemma Below(d: nat, q: nat, r: nat, n: nat)
    requires r < d && q < n
    ensures q * d + r < n * d
  {
    Distribute(q, 1, d);
    Grows(q + 1, n, d);
  }

  /** Which row a place is in. */
  lemma RowBelow(d: nat, q: nat, r: nat, n: nat)
    requires r < d && q * d + r < n * d
    ensures q < n
  {
    if q >= n { Grows(n, q, d); }
  }

  lemma HighDigit(n: nat, d: nat, k: nat)
    requires d > 0 && n < d * k
    ensures n / d < k
  {
    DivMod(n, d);
    Commutes(d, k);
    RowBelow(d, n / d, n % d, k);
  }
}
