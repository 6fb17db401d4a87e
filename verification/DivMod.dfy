/** The few facts about integer division that the models share. */
module DivMod {

  lemma MulSmall(k: int, n: int)
    requires n > 0 && -n < k * n < n
    ensures k == 0
  {
  }

  lemma MulNonNegative(x: nat, y: nat)
    ensures x * y >= 0
  {
  }

  lemma MulStep(x: int, y: int)
    ensures x * y == (x - 1) * y + y
  {
  }

  /** A quotient and a remainder in range are the quotient and the remainder. */
  lemma Quotient(x: int, n: int, q: int, r: int)
    requires n > 0 && x == q * n + r && 0 <= r < n
    ensures x / n == q && x % n == r
  {
    var d, m := x / n, x % n;
    assert x == d * n + m;
    assert (q - d) * n == q * n - d * n;
    MulSmall(q - d, n);
  }

  lemma DivExact(q: int, n: int)
    requires n > 0
    ensures q * n / n == q && q * n % n == 0
  {
    Quotient(q * n, n, q, 0);
  }

  lemma DivAdd(a: nat, b: nat, n: nat)
    requires n > 0
    ensures a / n + b / n <= (a + b) / n <= a / n + b / n + 1
  {
    var q1, r1, q2, r2 := a / n, a % n, b / n, b % n;
    assert (q1 + q2) * n == q1 * n + q2 * n;
    if r1 + r2 < n {
      Quotient(a + b, n, q1 + q2, r1 + r2);
    } else {
      assert (q1 + q2 + 1) * n == (q1 + q2) * n + n;
      Quotient(a + b, n, q1 + q2 + 1, r1 + r2 - n);
    }
  }

  lemma NegativeFactor(k: int, n: int)
    requires n > 0 && k * n < 0
    ensures k < 0
  {
  }

  lemma DivMonotone(a: int, b: int, n: int)
    requires n > 0 && a <= b
    ensures a / n <= b / n
  {
    var qa, qb := a / n, b / n;
    assert (qa - qb - 1) * n == qa * n - qb * n - n;
    NegativeFactor(qa - qb - 1, n);
  }

  lemma FloorBounds(x: int, n: int)
    requires n > 0
    ensures x / n * n <= x < x / n * n + n
  {
    assert x == x / n * n + x % n;
  }

  lemma AtLeastOne(x: int, n: int)
    requires n > 0 && n <= x
    ensures x / n >= 1
  {
    DivMonotone(n, x, n);
    DivExact(1, n);
  }
}
