/** Small facts about real arithmetic that the solver does not find by itself. */
module RealFacts {
  /** Multiplication under a name, so that a proof can hide it. */
  function Times(a: real, b: real): real {
    a * b
  }

  function Max(a: real, b: real): real {
    if a >= b then a else b
  }

  function Min(a: real, b: real): real {
    if a <= b then a else b
  }

  function Power(b: real, n: nat): real {
    if n == 0 then 1.0 else b * Power(b, n - 1)
  }

  lemma ProductMonotone(a: real, b: real, c: real, d: real)
    requires 0.0 <= a <= c && 0.0 <= b <= d
    ensures 0.0 <= a * b <= c * d
  {
    assert a * b <= c * b;
    assert c * b <= c * d;
  }

  lemma ProductIncreases(a: real, b: real, c: real, d: real)
    requires 0.0 < a <= c && 0.0 < b <= d
    requires a < c || b < d
    ensures a * b < c * d
  {
    if a < c {
      assert a * b < c * b;
      assert c * b <= c * d;
    } else {
      assert a * b < a * d;
    }
  }

  lemma ProductStrict(a: real, b: real, c: real, d: real)
    requires 0.0 < a <= c && 0.0 < b <= d
    requires a * b == c * d
    ensures a == c && b == d
  {
    if a < c || b < d {
      ProductIncreases(a, b, c, d);
    }
  }

  lemma QuotientIsOne(a: real, b: real)
    requires b > 0.0
    ensures a / b == 1.0 <==> a == b
  {
    assert a == (a / b) * b;
  }

  lemma QuotientMonotone(a: real, c: real, b: real)
    requires b > 0.0
    ensures a <= c ==> a / b <= c / b
    ensures a < c ==> a / b < c / b
  {
  }

  lemma QuotientBounds(a: real, b: real)
    requires 0.0 <= a <= b && b > 0.0
    ensures 0.0 <= a / b <= 1.0
  {
    QuotientMonotone(0.0, a, b);
    QuotientMonotone(a, b, b);
  }

  /** A quotient is unchanged when numerator and denominator are multiplied by the same positive number. */
  lemma QuotientCancel(a: real, b: real, k: real)
    requires b != 0.0 && k != 0.0
    ensures k * b != 0.0 && (k * a) / (k * b) == a / b
  {
    var q := a / b;
    assert q * b == a;
    assert k * a == q * (k * b);
  }

  lemma {:induction false} PowerGrows(b: real, n: nat)
    requires b >= 1.0
    ensures 1.0 <= Power(b, n) <= Power(b, n + 1)
  {
    if n > 0 {
      PowerGrows(b, n - 1);
    }
    ProductMonotone(1.0, Power(b, n), b, Power(b, n));
  }
}
