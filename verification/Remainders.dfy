/**
 Facts about quotients and remainders, each small enough for the solver.
 */
module Remainders {

  lemma MulDistributes(a: int, b: int, m: int)
    ensures (a - b) * m == a * m - b * m
    ensures (a + b) * m == a * m + b * m
  {
  }

  lemma MulAtLeast(a: int, m: int)
    requires a >= 1 && m >= 1
    ensures a * m >= m
  {
  }

  /** Quotient and remainder are unique. */
  lemma DivisionUnique(m: int, q: int, r: int, q': int, r': int)
    requires m > 0 && q * m + r == q' * m + r' && 0 <= r < m && 0 <= r' < m
    ensures q == q' && r == r'
  {
    MulDistributes(q, q', m);
    MulDistributes(q', q, m);
    if q > q' {
      MulAtLeast(q - q', m);
    } else if q' > q {
      MulAtLeast(q' - q, m);
    }
  }

  lemma RemainderUnique(x: int, m: nat, q: int, r: int)
    requires m > 0 && x == q * m + r && 0 <= r < m
    ensures x % m == r && x / m == q
  {
    DivisionUnique(m, x / m, x % m, q, r);
  }

  lemma RemainderShift(x: int, m: nat, k: int)
    requires m > 0
    ensures (x + k * m) % m == x % m
  {
    MulDistributes(x / m, k, m);
    RemainderUnique(x + k * m, m, x / m + k, x % m);
  }

  /** A number and its remainder differ by a multiple. */
  lemma RemainderIsCongruent(x: int, m: nat)
    requires m > 0
    ensures x % m == x + (-(x / m)) * m
  {
    MulDistributes(0, x / m, m);
  }

  /** A summand may be reduced first. */
  lemma RemainderLeft(x: int, y: int, m: nat)
    requires m > 0
    ensures (x % m + y) % m == (x + y) % m
  {
    RemainderIsCongruent(x, m);
    RemainderShift(x + y, m, -(x / m));
  }

  lemma RemainderRight(x: int, y: int, m: nat)
    requires m > 0
    ensures (x - y % m) % m == (x - y) % m
  {
    RemainderIsCongruent(y, m);
    MulDistributes(0, -(y / m), m);
    RemainderShift(x - y, m, y / m);
  }

  /** Numbers with the same remainder keep it when the same is added to both. */
  lemma SameRemainder(x: int, y: int, k: int, m: nat)
    requires m > 0 && x % m == y % m
    ensures (x + k) % m == (y + k) % m
  {
    RemainderLeft(x, k, m);
    RemainderLeft(y, k, m);
  }

  lemma MulAssociates(a: int, b: int, c: int)
    ensures a * (b * c) == (a * b) * c
  {
  }

  lemma RemainderOfMultiple(x: int, m: nat, q: int, k: nat, n: nat)
    requires n > 0 && m == k * n
    ensures (x + q * m) % n == x % n
  {
    MulAssociates(q, k, n);
    RemainderShift(x, n, q * k);
  }

  /** Numbers with the same remainder by a multiple of n have the same remainder by n. */
  lemma CoarserRemainder(x: int, y: int, k: nat, n: nat)
    requires n > 0 && k > 0 && k * n > 0 && x % (k * n) == y % (k * n)
    ensures x % n == y % n
  {
    RemainderIsCongruent(x, k * n);
    RemainderIsCongruent(y, k * n);
    RemainderOfMultiple(x, k * n, -(x / (k * n)), k, n);
    RemainderOfMultiple(y, k * n, -(y / (k * n)), k, n);
  }

  lemma RemainderAtMost(x: nat, m: nat)
    requires m > 0
    ensures x % m <= x
  {
    if x < m {
      RemainderUnique(x, m, 0, x);
    }
  }

  lemma DivisionIdentity(x: int, m: nat)
    requires m > 0
    ensures x == (x / m) * m + x % m
  {
  }

  lemma SmallRemainder(x: int, m: nat)
    requires 0 <= x < m
    ensures x % m == x
  {
    RemainderUnique(x, m, 0, x);
  }
}
