// The four small filters that the box filter amounts to: three of two dimensions and one scalar.

module AxisFilters {
  import opened RealFacts

  /** Position, velocity and their covariance [[pp, pv], [pv, vv]]. */
  datatype Axis = Axis(pos: real, vel: real, pp: real, pv: real, vv: real)

  /** A value without velocity and its variance. */
  datatype Level = Level(val: real, variance: real)

  /** Centre x, centre y, area and aspect ratio. */
  datatype Filter = Filter(u: Axis, v: Axis, s: Axis, r: Level)

  predicate PositiveDefinite(a: Axis) {
    a.pp > 0.0 && a.vv > 0.0 && a.pp * a.vv - a.pv * a.pv > 0.0
  }

  predicate Sound(f: Filter) {
    PositiveDefinite(f.u) && PositiveDefinite(f.v) && PositiveDefinite(f.s) && f.r.variance > 0.0
  }

  function PredictAxis(a: Axis): Axis {
    Axis(a.pos + a.vel, a.vel, a.pp + 2.0 * a.pv + a.vv + 1.0, a.pv + a.vv, a.vv + 0.01)
  }

  /** The area's velocity is cleared when it would take the area to zero or below. */
  function Guarded(a: Axis): Axis {
    if a.vel + a.pos <= 0.0 then a.(vel := 0.0) else a
  }

  function PredictFilter(f: Filter): Filter {
    Filter(PredictAxis(f.u), PredictAxis(f.v), PredictAxis(Guarded(f.s)), Level(f.r.val, f.r.variance + 1.0))
  }

  /** The share of the innovation that the measured component takes, for measurement noise n. */
  function Gain(pp: real, n: real): real
    requires pp + n != 0.0
  {
    pp / (pp + n)
  }

  /** Correct a block with gain k on the position and g on the velocity. */
  function Corrected(a: Axis, k: real, g: real, z: real): Axis {
    Axis(a.pos + Times(k, z - a.pos), a.vel + Times(g, z - a.pos),
         Times(1.0 - k, a.pp), Times(1.0 - k, a.pv), a.vv - Times(g, a.pv))
  }

  function UpdateAxis(a: Axis, n: real, z: real): Axis
    requires a.pp + n != 0.0
  {
    Corrected(a, Gain(a.pp, n), a.pv / (a.pp + n), z)
  }

  function UpdateLevel(l: Level, n: real, z: real): Level
    requires l.variance + n != 0.0
  {
    var k := Gain(l.variance, n);
    Level(l.val + Times(k, z - l.val), Times(1.0 - k, l.variance))
  }

  /** Measurement noise: 1 for the centre, 10 for area and aspect ratio. */
  function UpdateFilter(f: Filter, z: seq<real>): Filter
    requires Sound(f) && |z| == 4
  {
    Filter(UpdateAxis(f.u, 1.0, z[0]), UpdateAxis(f.v, 1.0, z[1]), UpdateAxis(f.s, 10.0, z[2]),
           UpdateLevel(f.r, 10.0, z[3]))
  }

  lemma QuotientTimes(a: real, b: real)
    requires b != 0.0
    ensures (a / b) * b == a
  {
  }

  lemma PositiveFactor(a: real, b: real)
    requires a > 0.0 && a * b > 0.0
    ensures b > 0.0
  {
  }

  /** The gain is strictly between 0 and 1, so an update is a strict convex combination. */
  lemma GainInUnitInterval(pp: real, n: real)
    requires pp > 0.0 && n > 0.0
    ensures 0.0 < Gain(pp, n) < 1.0
    ensures Gain(pp, n) * (pp + n) == pp
    ensures (1.0 - Gain(pp, n)) * (pp + n) == n
    ensures (1.0 - Gain(pp, n)) * pp == Gain(pp, n) * n < n
  {
    var s, k := pp + n, Gain(pp, n);
    QuotientTimes(pp, s);
    PositiveFactor(s, k);
    assert s * (1.0 - k) == n;
    PositiveFactor(s, 1.0 - k);
    assert (1.0 - k) * pp == (1.0 - k) * s * k;
    assert k * n < n;
  }

  lemma ConvexBetween(x: real, z: real, k: real)
    requires 0.0 < k < 1.0
    ensures x > 0.0 && z > 0.0 ==> x + k * (z - x) > 0.0
    ensures x >= 0.0 && z >= 0.0 ==> x + k * (z - x) >= 0.0
  {
    assert x + k * (z - x) == (1.0 - k) * x + k * z;
    if x >= 0.0 && z >= 0.0 {
      ProductMonotone(0.0, 0.0, 1.0 - k, x);
      ProductMonotone(0.0, 0.0, k, z);
    }
  }

  lemma SumOfSquare(a: Axis)
    requires PositiveDefinite(a)
    ensures a.pp + 2.0 * a.pv + a.vv > 0.0
  {
    // pp * (pp + 2 pv + vv) = (pp + pv)^2 + det
    var q := a.pp + 2.0 * a.pv + a.vv;
    var b := a.pp + a.pv;
    assert a.pp * q == b * b + (a.pp * a.vv - a.pv * a.pv);
    assert b * b >= 0.0;
    PositiveFactor(a.pp, q);
  }

  /** Prediction keeps a block positive definite. */
  lemma PredictKeepsDefinite(a: Axis)
    requires PositiveDefinite(a)
    ensures PositiveDefinite(PredictAxis(a))
  {
    SumOfSquare(a);
    var q := a.pp + 2.0 * a.pv + a.vv;
    var det := a.pp * a.vv - a.pv * a.pv;
    var b := PredictAxis(a);
    assert b.pp * b.vv - b.pv * b.pv == det + a.vv + 0.01 * (q + 1.0);
  }

  lemma SameFactor(s: real, a: real, b: real)
    requires s > 0.0 && s * a == s * b
    ensures a == b
  {
  }

  lemma CorrectedIsDefinite(a: Axis, n: real, s: real, k: real, g: real, z: real)
    requires PositiveDefinite(a) && n > 0.0
    requires s == a.pp + n && k * s == a.pp && g * s == a.pv && 0.0 < k < 1.0
    ensures PositiveDefinite(Corrected(a, k, g, z)) && Corrected(a, k, g, z).pp < n
  {
    var c := 1.0 - k;
    var w := a.vv - g * a.pv;
    var det := a.pp * a.vv - a.pv * a.pv;
    assert c * s == n;
    assert s * w == det + n * a.vv by {
      assert s * (g * a.pv) == a.pv * a.pv;
    }
    assert n * a.vv > 0.0;
    PositiveFactor(s, w);
    assert c * a.pp == k * n && 0.0 < k * n < n;
    var d := (c * a.pp) * w - (c * a.pv) * (c * a.pv);
    // s * d = c * (pp * s * w - c * s * pv^2) = c * (pp * (det + n vv) - n pv^2) = c * s * det
    var inner := a.pp * w - c * (a.pv * a.pv);
    assert d == c * inner;
    assert s * inner == s * det by {
      assert s * inner == a.pp * (s * w) - (c * s) * (a.pv * a.pv);
      assert a.pp * (det + n * a.vv) - n * (a.pv * a.pv) == a.pp * det + n * det;
    }
    SameFactor(s, inner, det);
    assert c * inner > 0.0;
  }

  /** An update keeps a block positive definite and brings the measured variance below the noise. */
  lemma UpdateKeepsDefinite(a: Axis, n: real, z: real)
    requires PositiveDefinite(a) && n > 0.0
    ensures PositiveDefinite(UpdateAxis(a, n, z))
    ensures UpdateAxis(a, n, z).pp < n
  {
    assert a.pp > 0.0;
    hide Corrected, PositiveDefinite, Gain, Times;
    var s := a.pp + n;
    GainInUnitInterval(a.pp, n);
    QuotientTimes(a.pv, s);
    CorrectedIsDefinite(a, n, s, Gain(a.pp, n), a.pv / s, z);
  }

  /** Every block stays positive definite; after an update each measured variance is below its noise. */
  lemma StepsKeepSound(f: Filter, z: seq<real>)
    requires Sound(f) && |z| == 4
    ensures Sound(PredictFilter(f)) && Sound(UpdateFilter(f, z))
    ensures var g := UpdateFilter(f, z); g.u.pp < 1.0 && g.v.pp < 1.0 && g.s.pp < 10.0 && g.r.variance < 10.0
  {
    PredictKeepsDefinite(f.u);
    PredictKeepsDefinite(f.v);
    assert PositiveDefinite(Guarded(f.s));
    PredictKeepsDefinite(Guarded(f.s));
    UpdateKeepsDefinite(f.u, 1.0, z[0]);
    UpdateKeepsDefinite(f.v, 1.0, z[1]);
    UpdateKeepsDefinite(f.s, 10.0, z[2]);
    hide PositiveDefinite, UpdateAxis, PredictAxis, Gain;
    GainInUnitInterval(f.r.variance, 10.0);
  }
}
