/** The few facts of integer arithmetic the index proofs rest on. */
module Arith {
  lemma MulSub(a: int, b: int, n: int)
    ensures (b - a) * n == b * n - a * n
  {
  }

  lemma MulNonNeg(a: int, b: int)
    requires 0 <= a && 0 <= b
    ensures 0 <= a * b
  {
  }

  lemma MulMono(a: int, b: int, n: int)
    requires a <= b && 0 <= n
    ensures a * n <= b * n
  {
    MulNonNeg(b - a, n);
    MulSub(a, b, n);
  }

  /** Mixed-radix digits stay below the product of the radices. */
  lemma MulBound(q: int, r: int, m: int, n: int)
    requires 0 <= q < m && 0 <= r < n
    ensures 0 <= q * n + r < m * n
  {
    MulNonNeg(q, n);
    MulMono(q + 1, m, n);
    MulSub(q, q + 1, n);
  }

  /** Quotient and remainder are determined by the sum they make. */
  lemma DivUnique(q1: int, r1: int, q2: int, r2: int, n: int)
    requires 0 <= r1 < n && 0 <= r2 < n
    requires q1 * n + r1 == q2 * n + r2
    ensures q1 == q2 && r1 == r2
  {
    if q1 < q2 {
      MulMono(q1 + 1, q2, n);
      MulSub(q1, q1 + 1, n);
    } else if q2 < q1 {
      MulMono(q2 + 1, q1, n);
      MulSub(q2, q2 + 1, n);
    }
  }

  /** Euclidean division of a number below m * n by n gives a quotient below m. */
  lemma DivBelow(i: int, m: int, n: int)
    requires 0 <= i < m * n && 0 < n
    ensures 0 <= i / n < m
    ensures i == i / n * n + i % n
  {
    var q := i / n;
    assert i == q * n + i % n;
    if q >= m { MulMono(m, q, n); }
    if q < 0 {
      MulMono(q + 1, 0, n);
      MulSub(q, q + 1, n);
    }
  }
}
