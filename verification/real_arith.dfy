/** Facts about real multiplication and division that the solver does not
    find unaided, shared by the modules that scale and divide sensor values. */
module RealArith {

  function Abs(x: real): (r: real)
    ensures r >= 0.0 && (r == x || r == -x)
  {
    if x < 0.0 then -x else x
  }

  function Max(a: real, b: real): (r: real)
    ensures r >= a && r >= b && (r == a || r == b)
  {
    if a < b then b else a
  }

  lemma ScaleMonotone(a: real, b: real, c: real)
    requires a <= b && c >= 0.0
    ensures a * c <= b * c && c * a <= c * b
  {
  }

  /** Products of non-negative factors grow with both factors. */
  lemma ProductMonotone(a1: real, a2: real, f1: real, f2: real)
    requires 0.0 <= a1 <= a2 && 0.0 <= f1 <= f2
    ensures a1 * f1 <= a2 * f2
  {
    ScaleMonotone(a1, a2, f1);
    ScaleMonotone(f1, f2, a2);
  }

  lemma ScaleStrict(a: real, b: real, c: real)
    requires a < b && c > 0.0
    ensures a * c < b * c && c * a < c * b
  {
  }

  lemma MulPositive(a: real, b: real)
    ensures a > 0.0 && b > 0.0 ==> a * b > 0.0
  {
  }

  /** `n / c <= b` exactly when `n <= b·c`, for a positive divisor. */
  lemma QuotientAtMost(n: real, c: real, b: real)
    requires c > 0.0
    ensures n / c <= b <==> n <= b * c
  {
    var q := n / c;
    assert q * c == n;
    if q > b {
      ScaleStrict(b, q, c);
      assert b * c < q * c;
    } else {
      ScaleMonotone(q, b, c);
    }
  }

  /** Sign, oddness and unit-bound facts about division by a positive real. */
  lemma QuotientFacts(n: real, k: real)
    requires k > 0.0
    ensures n > 0.0 ==> n / k > 0.0
    ensures n < 0.0 ==> n / k < 0.0
    ensures (-n) / k == -(n / k)
    ensures n <= k ==> n / k <= 1.0
    ensures n == k ==> n / k == 1.0
  {
    var q := n / k;
    assert q * k == n;
    var q2 := (-n) / k;
    assert q2 * k == -n;
    assert (q2 + q) * k == 0.0;
  }

  /** Dividing a positive amount by more than one shrinks it. */
  lemma QuotientBelow(n: real, d: real)
    requires n > 0.0 && d > 1.0
    ensures 0.0 < n / d < n
  {
    QuotientFacts(n, d);
    QuotientAtMost(n, d, n);
    ScaleStrict(1.0, d, n);
  }

  /** A larger positive divisor gives a smaller quotient. */
  lemma QuotientAntitone(n: real, d1: real, d2: real)
    requires n > 0.0 && 0.0 < d1 < d2
    ensures n / d2 < n / d1
  {
    var q1, q2 := n / d1, n / d2;
    assert q1 * d1 == n && q2 * d2 == n;
    QuotientFacts(n, d1);
    ScaleStrict(d1, d2, q1);
    assert n < q1 * d2;
    QuotientAtMost(n, d2, q1);
    assert q2 <= q1;
  }
}
