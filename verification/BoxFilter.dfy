// Boxes in and out of the filter, whole runs of the filter, and the filter object.

module BoxFilters {
  import opened RealFacts
  import opened LinearAlgebra
  import opened AxisFilters
  import opened DenseFilter
  import opened Boxes

  const EPSILON := 0.000001

  function CentreX(b: Box): real {
    b.x1 + (b.x2 - b.x1) / 2.0
  }

  function CentreY(b: Box): real {
    b.y1 + (b.y2 - b.y1) / 2.0
  }

  /** [centre x, centre y, area, aspect ratio] */
  function Measurement(b: Box): (z: Vector)
    ensures |z| == M
  {
    var width, height := b.x2 - b.x1, b.y2 - b.y1;
    [CentreX(b), CentreY(b), Times(Max(width, 0.0), Max(height, 0.0)),
     if height > EPSILON then width / height else 0.0]
  }

  function DecodedWidth(sqrt: real -> real, area: real, ratio: real): real {
    if ratio > 0.0 then sqrt(Times(Max(area, 0.0), ratio)) else 0.0
  }

  function DecodedHeight(area: real, width: real): real {
    if width > EPSILON then Max(area, 0.0) / width else 0.0
  }

  /** The box of a state; sqrt stands for the foreign square root. */
  function ToBox(sqrt: real -> real, x: Vector): Box
    requires |x| >= 4
  {
    var width := DecodedWidth(sqrt, x[2], x[3]);
    var height := DecodedHeight(x[2], width);
    Box(x[0] - width / 2.0, x[1] - height / 2.0, x[0] + width / 2.0, x[1] + height / 2.0)
  }

  /** What a square root promises at one argument. */
  predicate IsRoot(w: real, a: real) {
    w >= 0.0 && w * w == a
  }

  lemma NoZeroDivisors(d: real, t: real)
    requires d * t == 0.0
    ensures d == 0.0 || t == 0.0
  {
    if d != 0.0 {
      assert t == (d * t) / d;
    }
  }

  lemma RootUnique(v: real, w: real, a: real)
    requires IsRoot(v, a) && IsRoot(w, a)
    ensures v == w
  {
    var d, t := v - w, v + w;
    assert d * t == v * v - w * w;
    NoZeroDivisors(d, t);
  }

  /** Every decoded box is ordered and keeps the state's centre. */
  lemma DecodedBoxIsOrdered(sqrt: real -> real, x: Vector)
    requires |x| >= 4
    requires var a := Times(Max(x[2], 0.0), x[3]); a >= 0.0 ==> IsRoot(sqrt(a), a)
    ensures var b := ToBox(sqrt, x);
            b.x1 <= b.x2 && b.y1 <= b.y2 && CentreX(b) == x[0] && CentreY(b) == x[1]
  {
    var width := DecodedWidth(sqrt, x[2], x[3]);
    if x[3] > 0.0 {
      ProductMonotone(0.0, 0.0, Max(x[2], 0.0), x[3]);
    }
    if width > EPSILON {
      QuotientMonotone(0.0, Max(x[2], 0.0), width);
    }
  }

  /** The measurement holds the centre, the area and width over height, and 0 for what a degenerate box lacks. */
  lemma MeasurementSays(b: Box)
    ensures var z, w, h := Measurement(b), b.x2 - b.x1, b.y2 - b.y1;
            && 2.0 * z[0] == b.x1 + b.x2 && 2.0 * z[1] == b.y1 + b.y2
            && (w >= 0.0 && h >= 0.0 ==> z[2] == w * h)
            && (w <= 0.0 || h <= 0.0 ==> z[2] == 0.0)
            && (if h > 0.000001 then z[3] * h == w else z[3] == 0.0)
  {
    if b.y2 - b.y1 > EPSILON {
      QuotientTimes(b.x2 - b.x1, b.y2 - b.y1);
    }
  }

  /** A decoded box lies around the state's centre, with the state's area and, times its height, aspect ratio. */
  lemma DecodedBoxSays(sqrt: real -> real, x: Vector)
    requires |x| >= 4
    requires var a := Times(Max(x[2], 0.0), x[3]); a >= 0.0 ==> IsRoot(sqrt(a), a)
    ensures var b := ToBox(sqrt, x);
            var w, h := b.x2 - b.x1, b.y2 - b.y1;
            && b.x1 + b.x2 == 2.0 * x[0] && b.y1 + b.y2 == 2.0 * x[1]
            && (if x[3] > 0.0 then w >= 0.0 && w * w == Max(x[2], 0.0) * x[3] else w == 0.0)
            && (if w > 0.000001 then w * h == Max(x[2], 0.0) && x[3] * h == w else h == 0.0)
  {
    var a, w := Max(x[2], 0.0), DecodedWidth(sqrt, x[2], x[3]);
    if x[3] > 0.0 {
      ProductMonotone(0.0, 0.0, a, x[3]);
    }
    if w > EPSILON {
      QuotientTimes(a, w);
      var h := a / w;
      assert w * (x[3] * h) == x[3] * a == w * w;
      SameFactor(w, x[3] * h, w);
    }
  }

  lemma AreaTimesRatio(w: real, h: real)
    requires h > 0.0
    ensures Times(Times(w, h), w / h) == w * w
  {
    var q := w / h;
    QuotientTimes(w, h);
    assert (w * h) * q == w * (q * h);
  }

  lemma AreaOverWidth(w: real, h: real)
    requires w > 0.0
    ensures Times(w, h) / w == h
  {
    QuotientTimes(w * h, w);
  }

  lemma RatioSign(w: real, h: real)
    requires h > 0.0
    ensures w / h > 0.0 <==> w > 0.0
  {
    QuotientTimes(w, h);
  }

  lemma DecodeMeasured(sqrt: real -> real, b: Box)
    requires b.x2 - b.x1 > 0.0 && b.y2 - b.y1 > EPSILON
    requires var z := Measurement(b); IsRoot(sqrt(Times(z[2], z[3])), Times(z[2], z[3]))
    ensures var z := Measurement(b);
            DecodedWidth(sqrt, z[2], z[3]) == b.x2 - b.x1
            && DecodedHeight(z[2], b.x2 - b.x1) == if b.x2 - b.x1 > EPSILON then b.y2 - b.y1 else 0.0
  {
    var w, h := b.x2 - b.x1, b.y2 - b.y1;
    var z := Measurement(b);
    assert Times(w, h) > 0.0;
    AreaTimesRatio(w, h);
    RatioSign(w, h);
    AreaOverWidth(w, h);
    assert IsRoot(w, Times(z[2], z[3]));
    RootUnique(sqrt(Times(z[2], z[3])), w, Times(z[2], z[3]));
  }

  /** Box to measurement to box is the identity exactly for boxes with both sides above 1e-6, and for points. */
  lemma MeasurementRoundTrip(sqrt: real -> real, b: Box)
    requires var z := Measurement(b);
             var a := Times(z[2], z[3]); a >= 0.0 ==> IsRoot(sqrt(a), a)
    ensures var w, h := b.x2 - b.x1, b.y2 - b.y1;
            ToBox(sqrt, Measurement(b)) == b <==> (w > EPSILON && h > EPSILON) || (w == 0.0 && h == 0.0)
  {
    var w, h := b.x2 - b.x1, b.y2 - b.y1;
    var z := Measurement(b);
    if h > EPSILON {
      RatioSign(w, h);
      if w > 0.0 {
        AreaTimesRatio(w, h);
        DecodeMeasured(sqrt, b);
      }
      hide Times;
    }
  }

  // ---- Whole runs ----

  datatype Step = Predicted | Measured(box: Box)

  /** The code's filter: start from a box, then any sequence of predictions and updates. */
  function RunDense(inverse: Inverter, first: Box, steps: seq<Step>): (s: State)
    ensures s.Shape()
  {
    if steps == [] then Initial(Measurement(first))
    else
      var s := RunDense(inverse, first, steps[..|steps| - 1]);
      match steps[|steps| - 1]
      case Predicted => Predict(s)
      case Measured(b) => Update(inverse, s, Measurement(b))
  }

  function InitialFilter(z: Vector): Filter
    requires |z| == M
  {
    Filter(Axis(z[0], 0.0, 10.0, 0.0, 10000.0), Axis(z[1], 0.0, 10.0, 0.0, 10000.0),
           Axis(z[2], 0.0, 10.0, 0.0, 10000.0), Level(z[3], 10.0))
  }

  /** The same run on three axis filters and one level. */
  function RunBlocks(first: Box, steps: seq<Step>): (f: Filter)
    ensures Sound(f)
  {
    if steps == [] then InitialFilter(Measurement(first))
    else
      var f := RunBlocks(first, steps[..|steps| - 1]);
      match steps[|steps| - 1]
      case Predicted =>
        StepsKeepSound(f, Measurement(first));
        PredictFilter(f)
      case Measured(b) =>
        StepsKeepSound(f, Measurement(b));
        UpdateFilter(f, Measurement(b))
  }

  lemma InitialEmbedded(z: Vector)
    requires |z| == M
    ensures Initial(z) == Embed(InitialFilter(z))
  {
    DenseEqual(Initial(z).P, Embed(InitialFilter(z)).P, N, N);
  }

  /** On every run the dense filter is the embedding of the four small ones. */
  lemma {:induction false} RunIsBlockwise(inverse: Inverter, first: Box, steps: seq<Step>)
    ensures RunDense(inverse, first, steps) == Embed(RunBlocks(first, steps))
  {
    if steps == [] {
      InitialEmbedded(Measurement(first));
    } else {
      var f := RunBlocks(first, steps[..|steps| - 1]);
      RunIsBlockwise(inverse, first, steps[..|steps| - 1]);
      match steps[|steps| - 1]
      case Predicted => PredictEmbedded(f);
      case Measured(b) => UpdateEmbedded(inverse, f, Measurement(b));
    }
  }

  predicate DefiniteAt(P: Dense, i: nat)
    requires Dim(P, N, N) && i < 3
  {
    && P[i][i] > 0.0 && P[i + 4][i + 4] > 0.0
    && P[i][i] * P[i + 4][i + 4] - P[i][i + 4] * P[i + 4][i] > 0.0
  }

  /** Symmetric, zero outside the position-velocity blocks, every block positive definite. */
  predicate BlockDefinite(P: Dense) {
    && Dim(P, N, N)
    && (forall i, j | 0 <= i < N && 0 <= j < N :: P[i][j] == P[j][i])
    && (forall i, j | 0 <= i < N && 0 <= j < N && i != j && i != j + 4 && j != i + 4 :: P[i][j] == 0.0)
    && DefiniteAt(P, 0) && DefiniteAt(P, 1) && DefiniteAt(P, 2) && P[3][3] > 0.0
  }

  lemma EmbeddedIsDefinite(f: Filter)
    requires Sound(f)
    ensures BlockDefinite(Embed(f).P)
  {
  }

  lemma EmbeddedVariances(f: Filter)
    requires f.u.pp < 1.0 && f.v.pp < 1.0 && f.s.pp < 10.0 && f.r.variance < 10.0
    ensures forall i | 0 <= i < M :: Embed(f).P[i][i] < Noise(i)
  {
  }

  /** On every run the covariance keeps its block shape, symmetry and positive definiteness. */
  lemma CovarianceOnRuns(inverse: Inverter, first: Box, steps: seq<Step>)
    ensures BlockDefinite(RunDense(inverse, first, steps).P)
  {
    RunIsBlockwise(inverse, first, steps);
    EmbeddedIsDefinite(RunBlocks(first, steps));
  }

  /** On every run S is diagonal with positive entries, so the inverse the code asks for exists. */
  lemma InnovationOnRuns(inverse: Inverter, first: Box, steps: seq<Step>)
    ensures var S := InnovationCovariance(RunDense(inverse, first, steps).P);
            Diagonal(S, M) && (forall i | 0 <= i < M :: S[i][i] > 0.0) && IsInverse(S, inverse(S, M), M)
  {
    RunIsBlockwise(inverse, first, steps);
    var f := RunBlocks(first, steps);
    InnovationIsDiagonal(f);
    DiagonalInverse(InnovationCovariance(Embed(f).P), M);
  }

  /** After every update each measured variance is below its measurement noise. */
  lemma VarianceAfterUpdate(inverse: Inverter, first: Box, steps: seq<Step>, b: Box)
    ensures forall i | 0 <= i < M :: RunDense(inverse, first, steps + [Measured(b)]).P[i][i] < Noise(i)
  {
    var all := steps + [Measured(b)];
    assert all[..|all| - 1] == steps;
    RunIsBlockwise(inverse, first, all);
    StepsKeepSound(RunBlocks(first, steps), Measurement(b));
    EmbeddedVariances(RunBlocks(first, all));
  }

  /** Positive width and a height above the code's own cut-off. */
  predicate WellFormed(b: Box) {
    b.x2 - b.x1 > 0.0 && b.y2 - b.y1 > EPSILON
  }

  lemma MeasuredSigns(b: Box)
    ensures Measurement(b)[2] >= 0.0
    ensures WellFormed(b) ==> Measurement(b)[2] > 0.0 && Measurement(b)[3] > 0.0
  {
    var w, h := b.x2 - b.x1, b.y2 - b.y1;
    ProductMonotone(0.0, 0.0, Max(w, 0.0), Max(h, 0.0));
    if WellFormed(b) {
      RatioSign(w, h);
    }
  }

  lemma UpdateSigns(f: Filter, z: Vector)
    requires Sound(f) && |z| == M
    ensures f.s.pos >= 0.0 && z[2] >= 0.0 ==> UpdateFilter(f, z).s.pos >= 0.0
    ensures f.s.pos > 0.0 && z[2] > 0.0 ==> UpdateFilter(f, z).s.pos > 0.0
    ensures f.r.val > 0.0 && z[3] > 0.0 ==> UpdateFilter(f, z).r.val > 0.0
  {
    hide Gain;
    GainInUnitInterval(f.s.pp, 10.0);
    GainInUnitInterval(f.r.variance, 10.0);
    ConvexBetween(f.s.pos, z[2], Gain(f.s.pp, 10.0));
    ConvexBetween(f.r.val, z[3], Gain(f.r.variance, 10.0));
  }

  predicate AllWellFormed(steps: seq<Step>) {
    forall k | 0 <= k < |steps| && steps[k].Measured? :: WellFormed(steps[k].box)
  }

  /** The area never goes negative, and on well-formed boxes area and aspect ratio stay positive. */
  lemma {:induction false} BlocksStayPositive(first: Box, steps: seq<Step>)
    ensures RunBlocks(first, steps).s.pos >= 0.0
    ensures WellFormed(first) && AllWellFormed(steps) ==>
              RunBlocks(first, steps).s.pos > 0.0 && RunBlocks(first, steps).r.val > 0.0
  {
    if steps == [] {
      MeasuredSigns(first);
    } else {
      var last := |steps| - 1;
      var f := RunBlocks(first, steps[..last]);
      BlocksStayPositive(first, steps[..last]);
      if steps[last].Measured? {
        MeasuredSigns(steps[last].box);
        hide Measurement, UpdateFilter, WellFormed, Sound;
        UpdateSigns(f, Measurement(steps[last].box));
      }
    }
  }

  lemma EmbeddedAreaAndRatio(f: Filter)
    ensures Embed(f).x[2] == f.s.pos && Embed(f).x[3] == f.r.val
  {
  }

  /** The filtered area and aspect ratio of the dense filter on every run. */
  lemma AreaAndRatioOnRuns(inverse: Inverter, first: Box, steps: seq<Step>)
    ensures RunDense(inverse, first, steps).x[2] >= 0.0
    ensures WellFormed(first) && AllWellFormed(steps) ==>
              RunDense(inverse, first, steps).x[2] > 0.0 && RunDense(inverse, first, steps).x[3] > 0.0
  {
    hide *;
    RunIsBlockwise(inverse, first, steps);
    BlocksStayPositive(first, steps);
    EmbeddedAreaAndRatio(RunBlocks(first, steps));
  }

  // ---- The filter object ----

  class BoxKalmanFilter {
    var x: Vector
    var P: Dense

    ghost predicate Valid()
      reads this
    {
      |x| == N && Dim(P, N, N)
    }

    function Contents(): State
      reads this
    {
      State(x, P)
    }

    constructor (first: Box)
      ensures Valid() && Contents() == Initial(Measurement(first))
    {
      P := InitialCovariance();
      x := Measurement(first) + [0.0, 0.0, 0.0];
    }

    method Predict(sqrt: real -> real) returns (box: Box)
      requires Valid()
      modifies this
      ensures Valid() && Contents() == DenseFilter.Predict(old(Contents()))
      ensures box == ToBox(sqrt, x)
    {
      if x[6] + x[2] <= 0.0 {
        x := x[6 := 0.0];
      }
      x := Apply(F(), x, N, N);
      P := Sum(Product(Product(F(), P, N, N, N), Transposed(F(), N, N), N, N, N), Q(), N, N);
      box := ToBox(sqrt, x);
    }

    method Update(inverse: Inverter, measured: Box)
      requires Valid()
      modifies this
      ensures Valid() && Contents() == DenseFilter.Update(inverse, old(Contents()), Measurement(measured))
    {
      var z := Measurement(measured);
      var y := VectorDifference(z, Apply(H(), x, M, N));
      var S := Sum(Product(Product(H(), P, M, N, N), Transposed(H(), M, N), M, N, M), R(), M, M);
      var inverted := inverse(S, M);
      if Dim(inverted, M, M) {
        var K := Product(Product(P, Transposed(H(), M, N), N, N, M), inverted, N, M, M);
        x := VectorSum(x, Apply(K, y, N, M));
        P := Product(Difference(Eye(N), Product(K, H(), N, M, N), N, N), P, N, N, N);
      }
    }

    method CurrentBox(sqrt: real -> real) returns (box: Box)
      requires Valid()
      ensures box == ToBox(sqrt, x)
    {
      box := ToBox(sqrt, x);
    }
  }
}
