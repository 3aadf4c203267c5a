/** Small facts of real and integer arithmetic that the solver does not
    find unaided, each stated on its own so that no proof carries more
    non-linear terms than it needs. */
module Arith {

  lemma MulLeft(a: real, x: real, y: real)
    requires 0.0 <= a && x <= y
    ensures a * x <= a * y
  {
  }

  lemma MulNonNegative(a: real, b: real)
    requires 0.0 <= a && 0.0 <= b
    ensures 0.0 <= a * b
  {
  }

  lemma MulPositive(a: real, b: real)
    requires 0.0 < a && 0.0 < b
    ensures 0.0 < a * b
  {
  }

  lemma DivPositive(a: real, b: real)
    requires 0.0 < a && 0.0 < b
    ensures 0.0 < a / b
  {
  }

  lemma DivWithin(x: real, n: real, a: real, b: real)
    requires n > 0.0 && n * a <= x <= n * b
    ensures a <= x / n <= b
  {
    var q := x / n;
    assert q * n == x;
  }

  lemma MulMonotone(x: int, y: int, n: nat)
    requires x <= y
    ensures x * n <= y * n
  {
  }

  lemma DivMonotone(a: nat, b: nat, n: nat)
    requires a <= b && n > 0
    ensures a / n <= b / n
  {
    var qa, qb := a / n, b / n;
    assert a == qa * n + a % n && b == qb * n + b % n;
    if qa > qb {
      MulMonotone(qb + 1, qa, n);
    }
  }
}
