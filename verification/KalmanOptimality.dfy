// What the small filters' steps mean: a prediction moves the estimate by its velocity, an update has the least variance
// that any correction by the innovation can have.

module LeastVariance {
  import opened RealFacts
  import opened AxisFilters

  /** The variance of p times the position plus q times the velocity. */
  function Variance(a: Axis, p: real, q: real): real {
    p * p * a.pp + 2.0 * p * q * a.pv + q * q * a.vv
  }

  /**
   * The same after correcting the position by k and the velocity by g times the innovation: the correction of the
   * combination is h = p * k + q * g times the position's error and the measurement's error of variance n.
   */
  function CorrectedVariance(a: Axis, n: real, k: real, g: real, p: real, q: real): real {
    var h := p * k + q * g;
    Variance(a, p - h, q) + h * h * n
  }

  lemma SquareOfSum(p: real, q: real, v: real)
    ensures (p + q) * (p + q) * v == p * p * v + 2.0 * (p * q * v) + q * q * v
  {
    assert (p + q) * (p + q) == p * p + 2.0 * (p * q) + q * q;
  }

  /** A prediction adds the velocity to the position, and process noise of 1 and 0.01. */
  lemma PredictIsMotion(a: Axis, p: real, q: real)
    ensures var b := PredictAxis(a); p * b.pos + q * b.vel == p * a.pos + (p + q) * a.vel
    ensures Variance(PredictAxis(a), p, q) == Variance(a, p, p + q) + p * p + 0.01 * (q * q)
  {
    var b := PredictAxis(a);
    assert p * b.pos == p * a.pos + p * a.vel;
    assert p * p * b.pp == p * p * a.pp + 2.0 * (p * p * a.pv) + p * p * a.vv + p * p;
    assert p * q * b.pv == p * q * a.pv + p * q * a.vv;
    assert q * q * b.vv == q * q * a.vv + 0.01 * (q * q);
    SquareOfSum(p, q, a.vv);
    assert p * (p + q) * a.pv == p * p * a.pv + p * q * a.pv;
  }

  /** The corrected variance as a quadratic in the correction h. */
  lemma AsQuadratic(a: Axis, n: real, k: real, g: real, p: real, q: real)
    ensures var h := p * k + q * g;
            CorrectedVariance(a, n, k, g, p, q)
            == Variance(a, p, q) - 2.0 * (h * (p * a.pp + q * a.pv)) + h * h * (a.pp + n)
  {
    var h := p * k + q * g;
    SquareOfSum(p, -h, a.pp);
    assert p * -h * a.pp == -(h * (p * a.pp));
    assert (p - h) * q * a.pv == p * q * a.pv - h * (q * a.pv);
    assert h * h * (a.pp + n) == h * h * a.pp + h * h * n;
    assert h * (p * a.pp + q * a.pv) == h * (p * a.pp) + h * (q * a.pv);
  }

  /** With s * h = c the quadratic - 2 h c + h * h * s is - h * c, and no other value of h makes it smaller. */
  lemma LeastQuadratic(s: real, h: real, c: real, x: real)
    requires s > 0.0 && s * h == c
    ensures -2.0 * (h * c) + h * h * s == -(h * c)
    ensures -2.0 * (x * c) + x * x * s >= -(h * c)
  {
    assert h * h * s == h * (s * h);
    var d := x - h;
    assert d * d * s == x * x * s - 2.0 * (x * (s * h)) + h * (s * h);
    assert d * d >= 0.0;
    ProductMonotone(0.0, 0.0, d * d, s);
  }

  lemma UpdatedState(a: Axis, n: real, z: real)
    requires a.pp + n > 0.0
    ensures var u := UpdateAxis(a, n, z);
            && u.pos == a.pos + Gain(a.pp, n) * (z - a.pos)
            && u.vel == a.vel + (a.pv / (a.pp + n)) * (z - a.pos)
  {
  }

  lemma UpdatedVariance(a: Axis, n: real, z: real, k: real, g: real, p: real, q: real)
    requires a.pp + n > 0.0 && k == Gain(a.pp, n) && g == a.pv / (a.pp + n)
    ensures Variance(UpdateAxis(a, n, z), p, q) == Variance(a, p, q) - (p * k + q * g) * (p * a.pp + q * a.pv)
    ensures (a.pp + n) * (p * k + q * g) == p * a.pp + q * a.pv
  {
    var u, s, h := UpdateAxis(a, n, z), a.pp + n, p * k + q * g;
    QuotientTimes(a.pp, s);
    QuotientTimes(a.pv, s);
    assert s * h == p * (s * k) + q * (s * g);
    assert k * a.pv == g * a.pp by {
      assert k * a.pv == k * (s * g) && g * a.pp == g * (s * k);
    }
    assert u.pp == a.pp - k * a.pp && u.pv == a.pv - k * a.pv && u.vv == a.vv - g * a.pv;
    assert p * p * u.pp == p * p * a.pp - p * p * (k * a.pp);
    assert p * q * u.pv == p * q * a.pv - p * q * (k * a.pv);
    assert q * q * u.vv == q * q * a.vv - q * q * (g * a.pv);
    assert h * (p * a.pp) == p * p * (k * a.pp) + p * q * (g * a.pp);
    assert h * (q * a.pv) == p * q * (k * a.pv) + q * q * (g * a.pv);
    assert h * (p * a.pp + q * a.pv) == h * (p * a.pp) + h * (q * a.pv);
  }

  /** Gains with (pp + n) * (p * k + q * g) == p * pp + q * pv are the best, and the variance falls by that much. */
  lemma BestCorrection(a: Axis, n: real, bestK: real, bestG: real, k: real, g: real, p: real, q: real)
    requires a.pp + n > 0.0 && (a.pp + n) * (p * bestK + q * bestG) == p * a.pp + q * a.pv
    ensures CorrectedVariance(a, n, bestK, bestG, p, q)
         == Variance(a, p, q) - (p * bestK + q * bestG) * (p * a.pp + q * a.pv)
    ensures CorrectedVariance(a, n, bestK, bestG, p, q) <= CorrectedVariance(a, n, k, g, p, q)
  {
    hide Variance, CorrectedVariance;
    AsQuadratic(a, n, bestK, bestG, p, q);
    AsQuadratic(a, n, k, g, p, q);
    LeastQuadratic(a.pp + n, p * bestK + q * bestG, p * a.pp + q * a.pv, p * k + q * g);
  }

  /**
   * The update corrects by gains that no others beat: whatever combination of position and velocity one asks for, the
   * variance it states for it is that of its own correction and the least that any gains k and g give.
   */
  lemma UpdateIsBest(a: Axis, n: real, z: real, k: real, g: real, p: real, q: real) returns (bestK: real, bestG: real)
    requires PositiveDefinite(a) && n > 0.0
    ensures var u := UpdateAxis(a, n, z);
            && u.pos == a.pos + bestK * (z - a.pos) && u.vel == a.vel + bestG * (z - a.pos)
            && Variance(u, p, q) == CorrectedVariance(a, n, bestK, bestG, p, q)
                                 <= CorrectedVariance(a, n, k, g, p, q)
  {
    assert a.pp + n > 0.0;
    hide *;
    bestK, bestG := Gain(a.pp, n), a.pv / (a.pp + n);
    UpdatedState(a, n, z);
    UpdatedVariance(a, n, z, bestK, bestG, p, q);
    BestCorrection(a, n, bestK, bestG, k, g, p, q);
  }

  lemma OneMinusSquared(k: real, v: real, n: real)
    ensures (1.0 - k) * (1.0 - k) * v + k * k * n == v - 2.0 * (k * v) + k * k * (v + n)
  {
    assert (1.0 - k) * (1.0 - k) == 1.0 - 2.0 * k + k * k;
  }

  /** The same for the level: its variance is the least that any gain gives. */
  lemma LevelUpdateIsBest(l: Level, n: real, z: real, k: real) returns (best: real)
    requires l.variance > 0.0 && n > 0.0
    ensures var u := UpdateLevel(l, n, z);
            && u.val == l.val + best * (z - l.val)
            && u.variance == (1.0 - best) * (1.0 - best) * l.variance + best * best * n
                          <= (1.0 - k) * (1.0 - k) * l.variance + k * k * n
  {
    best := Gain(l.variance, n);
    var v, s := l.variance, l.variance + n;
    QuotientTimes(v, s);
    LeastQuadratic(s, best, v, best);
    LeastQuadratic(s, best, v, k);
    OneMinusSquared(best, v, n);
    OneMinusSquared(k, v, n);
  }
}
