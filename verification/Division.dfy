/**
  Division of naturals by repeated subtraction, which IsDivision shows to be / and %.  Stating results with
  Quotient and Remainder keeps division by a variable away from proofs that do not need it.
 */
module Division {
  function Quotient(n: nat, d: nat): nat
    requires d > 0
  {
    if n < d then 0 else 1 + Quotient(n - d, d)
  }

  function Remainder(n: nat, d: nat): (r: nat)
    requires d > 0
    ensures r < d
  {
    if n < d then n else Remainder(n - d, d)
  }

  lemma {:induction false} Recompose(n: nat, d: nat)
    requires d > 0
    ensures n == Quotient(n, d) * d + Remainder(n, d)
  {
    if n >= d {
      Recompose(n - d, d);
      MulPlusOne(Quotient(n - d, d), d);
    }
  }

  lemma MulPlusOne(q: nat, d: nat)
    ensures (1 + q) * d == q * d + d
  {}

  lemma {:induction false} Shrinks(n: nat, d: nat)
    requires 2 <= d <= n
    ensures 0 < Quotient(n, d) < n
  {
    if n - d >= d {
      Shrinks(n - d, d);
    }
  }

  lemma {:induction false} Unique(n: nat, d: nat, q: nat, r: nat)
    requires n == q * d + r && r < d
    ensures Quotient(n, d) == q && Remainder(n, d) == r
  {
    if q > 0 {
      MulPlusOne(q - 1, d);
      MulMonotone(0, q - 1, d);
      Unique(n - d, d, q - 1, r);
    }
  }

  lemma IsDivision(n: nat, d: nat)
    requires d > 0
    ensures Quotient(n, d) == n / d && Remainder(n, d) == n % d
  {
    assert n == n / d * d + n % d;
    Unique(n, d, n / d, n % d);
  }

  lemma MulLarger(a: nat, b: nat, d: nat)
    requires a > b
    ensures a * d >= b * d + d
  {
    assert a * d == (a - b - 1) * d + b * d + d;
    MulMonotone(0, a - b - 1, d);
  }

  lemma MulMonotone(a: nat, b: nat, d: nat)
    requires a <= b
    ensures a * d <= b * d
  {}

  /** Adding a multiple of d changes the quotient, not the remainder. */
  lemma AddMultiple(n: nat, d: nat, k: nat)
    requires d > 0
    ensures Remainder(n + k * d, d) == Remainder(n, d) && Quotient(n + k * d, d) == Quotient(n, d) + k
  {
    Recompose(n, d);
    assert (Quotient(n, d) + k) * d == Quotient(n, d) * d + k * d;
    Unique(n + k * d, d, Quotient(n, d) + k, Remainder(n, d));
  }
}
