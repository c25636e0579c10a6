// The filter as the code computes it: seven-dimensional state, dense matrix products, a foreign inverse.

module DenseFilter {
  import opened RealFacts
  import opened LinearAlgebra
  import opened AxisFilters

  const N := 7
  const M := 4

  /** State vector [u, v, s, r, u', v', s'] and its covariance. */
  datatype State = State(x: Vector, P: Dense) {
    predicate Shape() {
      |x| == N && Dim(P, N, N)
    }
  }

  function F(): (a: Dense)
    ensures Dim(a, N, N)
    ensures forall i, j | 0 <= i < N && 0 <= j < N :: a[i][j] == if i == j || (i < 3 && j == i + 4) then 1.0 else 0.0
  {
    Tabulate(N, N, (i, j) => if i == j || (i < 3 && j == i + 4) then 1.0 else 0.0)
  }

  function H(): (a: Dense)
    ensures Dim(a, M, N)
    ensures forall i, j | 0 <= i < M && 0 <= j < N :: a[i][j] == if i == j then 1.0 else 0.0
  {
    Tabulate(M, N, (i, j) => if i == j then 1.0 else 0.0)
  }

  function Q(): (a: Dense)
    ensures Dim(a, N, N)
    ensures forall i, j | 0 <= i < N && 0 <= j < N :: a[i][j] == if i != j then 0.0 else if i < 4 then 1.0 else 0.01
  {
    Tabulate(N, N, (i, j) => if i != j then 0.0 else if i < 4 then 1.0 else 0.01)
  }

  function Noise(i: nat): real {
    if i < 2 then 1.0 else 10.0
  }

  function R(): (a: Dense)
    ensures Dim(a, M, M)
    ensures forall i, j | 0 <= i < M && 0 <= j < M :: a[i][j] == if i != j then 0.0 else Noise(i)
  {
    Tabulate(M, M, (i: nat, j: nat) => if i != j then 0.0 else Noise(i))
  }

  function InitialCovariance(): (a: Dense)
    ensures Dim(a, N, N)
    ensures forall i, j | 0 <= i < N && 0 <= j < N :: a[i][j] == if i != j then 0.0 else if i < 4 then 10.0 else 10000.0
  {
    Tabulate(N, N, (i, j) => if i != j then 0.0 else if i < 4 then 10.0 else 10000.0)
  }

  function Initial(z: Vector): (s: State)
    requires |z| == M
    ensures s.Shape()
  {
    State(z + [0.0, 0.0, 0.0], InitialCovariance())
  }

  function ClearedVelocity(x: Vector): (y: Vector)
    requires |x| == N
    ensures |y| == N
  {
    if x[6] + x[2] <= 0.0 then x[6 := 0.0] else x
  }

  function Predict(s: State): (t: State)
    requires s.Shape()
    ensures t.Shape()
  {
    State(Apply(F(), ClearedVelocity(s.x), N, N),
          Sum(Product(Product(F(), s.P, N, N, N), Transposed(F(), N, N), N, N, N), Q(), N, N))
  }

  function InnovationCovariance(P: Dense): (s: Dense)
    requires Dim(P, N, N)
    ensures Dim(s, M, M)
  {
    Sum(Product(Product(H(), P, M, N, N), Transposed(H(), M, N), M, N, M), R(), M, M)
  }

  function KalmanGain(P: Dense, inverseOfS: Dense): (k: Dense)
    requires Dim(P, N, N) && Dim(inverseOfS, M, M)
    ensures Dim(k, N, M)
  {
    Product(Product(P, Transposed(H(), M, N), N, N, M), inverseOfS, N, M, M)
  }

  function Innovation(x: Vector, z: Vector): (y: Vector)
    requires |x| == N && |z| == M
    ensures |y| == M
  {
    VectorDifference(z, Apply(H(), x, M, N))
  }

  /** I - K H */
  function Residual(gain: Dense): (a: Dense)
    requires Dim(gain, N, M)
    ensures Dim(a, N, N)
  {
    Difference(Eye(N), Product(gain, H(), N, M, N), N, N)
  }

  function Correct(s: State, z: Vector, gain: Dense): (t: State)
    requires s.Shape() && |z| == M && Dim(gain, N, M)
    ensures t.Shape()
  {
    State(VectorSum(s.x, Apply(gain, Innovation(s.x, z), N, M)), Product(Residual(gain), s.P, N, N, N))
  }

  /** The code's update; numpy raises where S has no inverse, and the state is then left alone. */
  function Update(inverse: Inverter, s: State, z: Vector): (t: State)
    requires s.Shape() && |z| == M
    ensures t.Shape()
  {
    var t := inverse(InnovationCovariance(s.P), M);
    if Dim(t, M, M) then Correct(s, z, KalmanGain(s.P, t)) else s
  }

  // ---- The dense state that a four-block filter stands for ----

  function AxisOf(f: Filter, i: nat): Axis
    requires i < 3
  {
    if i == 0 then f.u else if i == 1 then f.v else f.s
  }

  function Covariance(f: Filter, i: nat, j: nat): real {
    if i == j then
      (if i < 3 then AxisOf(f, i).pp else if i == 3 then f.r.variance else if i < N then AxisOf(f, i - 4).vv else 0.0)
    else if i < 3 && j == i + 4 then AxisOf(f, i).pv
    else if j < 3 && i == j + 4 then AxisOf(f, j).pv
    else 0.0
  }

  function Embed(f: Filter): (s: State)
    ensures s.Shape()
    ensures forall i, j | 0 <= i < N && 0 <= j < N :: s.P[i][j] == Covariance(f, i, j)
  {
    State([f.u.pos, f.v.pos, f.s.pos, f.r.val, f.u.vel, f.v.vel, f.s.vel],
          Tabulate(N, N, (i: nat, j: nat) => Covariance(f, i, j)))
  }

  // ---- Evaluating the products ----

  lemma TimesUnit(x: real)
    ensures Times(1.0, x) == x && Times(x, 1.0) == x
    ensures Times(0.0, x) == 0.0 && Times(x, 0.0) == 0.0
  {
  }

  /** F times a matrix adds row i + 4 to row i. */
  lemma LeftTransition(p: Dense, i: nat, j: nat)
    requires Dim(p, N, N) && i < N && j < N
    ensures Product(F(), p, N, N, N)[i][j] == p[i][j] + if i < 3 then p[i + 4][j] else 0.0
  {
    var c := Column(p, N, N, j);
    TimesUnit(c[i]);
    if i < 3 {
      TimesUnit(c[i + 4]);
      DotTwo(F()[i], c, N, i, i + 4);
    } else {
      DotOne(F()[i], c, N, i);
    }
  }

  /** A matrix times F transposed adds column j + 4 to column j. */
  lemma RightTransition(p: Dense, i: nat, j: nat)
    requires Dim(p, N, N) && i < N && j < N
    ensures Product(p, Transposed(F(), N, N), N, N, N)[i][j] == p[i][j] + if j < 3 then p[i][j + 4] else 0.0
  {
    var c := Column(Transposed(F(), N, N), N, N, j);
    assert forall k | 0 <= k < N :: c[k] == F()[j][k];
    TimesUnit(p[i][j]);
    if j < 3 {
      TimesUnit(p[i][j + 4]);
      DotTwo(p[i], c, N, j, j + 4);
    } else {
      DotOne(p[i], c, N, j);
    }
  }

  lemma ApplyTransition(x: Vector, i: nat)
    requires |x| == N && i < N
    ensures Apply(F(), x, N, N)[i] == x[i] + if i < 3 then x[i + 4] else 0.0
  {
    TimesUnit(x[i]);
    if i < 3 {
      TimesUnit(x[i + 4]);
      DotTwo(F()[i], x, N, i, i + 4);
    } else {
      DotOne(F()[i], x, N, i);
    }
  }

  lemma PredictEmbeddedState(f: Filter)
    ensures Predict(Embed(f)).x == Embed(PredictFilter(f)).x
  {
    var x := ClearedVelocity(Embed(f).x);
    var y, z := Predict(Embed(f)).x, Embed(PredictFilter(f)).x;
    forall i | 0 <= i < N
      ensures y[i] == z[i]
    {
      ApplyTransition(x, i);
    }
  }

  /** One dense prediction is one prediction of each block. */
  lemma PredictEmbedded(f: Filter)
    ensures Predict(Embed(f)) == Embed(PredictFilter(f))
  {
    PredictEmbeddedState(f);
    var p, q := Embed(f).P, Embed(PredictFilter(f)).P;
    var left := Product(F(), p, N, N, N);
    forall i, j | 0 <= i < N && 0 <= j < N
      ensures Predict(Embed(f)).P[i][j] == q[i][j]
    {
      RightTransition(left, i, j);
      LeftTransition(p, i, j);
      if j < 3 {
        LeftTransition(p, i, j + 4);
      }
    }
    DenseEqual(Predict(Embed(f)).P, q, N, N);
  }

  lemma LeftObservation(p: Dense, i: nat, j: nat)
    requires Dim(p, N, N) && i < M && j < N
    ensures Product(H(), p, M, N, N)[i][j] == p[i][j]
  {
    TimesUnit(p[i][j]);
    DotOne(H()[i], Column(p, N, N, j), N, i);
  }

  lemma RightObservation(p: Dense, n: nat, i: nat, j: nat)
    requires Dim(p, n, N) && i < n && j < M
    ensures Product(p, Transposed(H(), M, N), n, N, M)[i][j] == p[i][j]
  {
    var c := Column(Transposed(H(), M, N), N, M, j);
    assert forall k | 0 <= k < N :: c[k] == H()[j][k];
    TimesUnit(p[i][j]);
    DotOne(p[i], c, N, j);
  }

  /** The variance of measured component i plus its noise. */
  function InnovationVariance(f: Filter, i: nat): real
    requires i < M
  {
    Covariance(f, i, i) + Noise(i)
  }

  /** S is diagonal with positive entries, hence invertible, whenever the blocks are sound. */
  lemma InnovationIsDiagonal(f: Filter)
    requires Sound(f)
    ensures var s := InnovationCovariance(Embed(f).P);
            Diagonal(s, M) && forall i | 0 <= i < M :: s[i][i] == InnovationVariance(f, i) > 0.0
  {
    var p := Embed(f).P;
    var s := InnovationCovariance(p);
    forall i, j | 0 <= i < M && 0 <= j < M
      ensures s[i][j] == p[i][j] + R()[i][j]
    {
      RightObservation(Product(H(), p, M, N, N), M, i, j);
      LeftObservation(p, i, j);
    }
  }

  /** Row i of the gain has one non-zero entry, in the column of the component its block measures. */
  function GainEntry(f: Filter, i: nat, j: nat): real
    requires Sound(f) && i < N && j < M
  {
    Covariance(f, i, j) / InnovationVariance(f, j)
  }

  lemma TimesReciprocal(a: real, b: real)
    requires b != 0.0
    ensures Times(a, 1.0 / b) == a / b
  {
  }

  lemma ZeroOver(b: real)
    requires b != 0.0
    ensures 0.0 / b == 0.0
  {
  }

  lemma GainEntries(inverse: Inverter, f: Filter)
    requires Sound(f)
    ensures var t := inverse(InnovationCovariance(Embed(f).P), M);
            && Dim(t, M, M)
            && forall i, j | 0 <= i < N && 0 <= j < M :: KalmanGain(Embed(f).P, t)[i][j] == GainEntry(f, i, j)
  {
    var p := Embed(f).P;
    var s := InnovationCovariance(p);
    InnovationIsDiagonal(f);
    InverterOnDiagonal(inverse, s, M);
    var t := inverse(s, M);
    var left := Product(p, Transposed(H(), M, N), N, N, M);
    forall i, j | 0 <= i < N && 0 <= j < M
      ensures KalmanGain(p, t)[i][j] == GainEntry(f, i, j)
    {
      RightObservation(p, N, i, j);
      DotOne(left[i], Column(t, M, M, j), M, j);
      TimesReciprocal(p[i][j], s[j][j]);
    }
  }

  /** The gain times H keeps the gain's four columns and adds three zero columns. */
  lemma GainTimesObservation(gain: Dense, i: nat, j: nat)
    requires Dim(gain, N, M) && i < N && j < N
    ensures Product(gain, H(), N, M, N)[i][j] == if j < M then gain[i][j] else 0.0
  {
    if j < M {
      TimesUnit(gain[i][j]);
    }
    DotOne(gain[i], Column(H(), M, N, j), M, j);
  }

  /** The one measured component that row i of the gain listens to. */
  function Source(i: nat): nat
    requires i < N
  {
    if i < M then i else i - 4
  }

  predicate SparseGain(gain: Dense) {
    Dim(gain, N, M) && forall i, k | 0 <= i < N && 0 <= k < M && k != Source(i) :: gain[i][k] == 0.0
  }

  lemma InnovationEntry(x: Vector, z: Vector, k: nat)
    requires |x| == N && |z| == M && k < M
    ensures Innovation(x, z)[k] == z[k] - x[k]
  {
    TimesUnit(x[k]);
    DotOne(H()[k], x, N, k);
  }

  lemma CorrectedState(s: State, z: Vector, gain: Dense, i: nat)
    requires s.Shape() && |z| == M && SparseGain(gain) && i < N
    ensures Correct(s, z, gain).x[i] == s.x[i] + Times(gain[i][Source(i)], z[Source(i)] - s.x[Source(i)])
  {
    var y := Innovation(s.x, z);
    InnovationEntry(s.x, z, Source(i));
    hide Times, Dot, Innovation;
    DotOne(gain[i], y, M, Source(i));
  }

  lemma ResidualEntry(gain: Dense, i: nat, k: nat)
    requires SparseGain(gain) && i < N && k < N
    ensures Residual(gain)[i][k]
         == if i == k then (if i < M then 1.0 - gain[i][i] else 1.0)
            else if i == k + 4 && k < 3 then -gain[i][k] else 0.0
  {
    GainTimesObservation(gain, i, k);
  }

  lemma CorrectedCovariance(s: State, z: Vector, gain: Dense, i: nat, j: nat)
    requires s.Shape() && |z| == M && SparseGain(gain) && i < N && j < N
    ensures Correct(s, z, gain).P[i][j]
         == if i < M then Times(1.0 - gain[i][i], s.P[i][j])
            else s.P[i][j] + Times(-gain[i][i - 4], s.P[i - 4][j])
  {
    var left := Residual(gain);
    forall k | 0 <= k < N {
      ResidualEntry(gain, i, k);
    }
    var c := Column(s.P, N, N, j);
    TimesUnit(c[i]);
    hide Times, Dot, Residual;
    if i < M {
      DotOne(left[i], c, N, i);
    } else {
      DotTwo(left[i], c, N, i - 4, i);
    }
  }

  lemma EmbeddedGainIsSparse(f: Filter, gain: Dense)
    requires Sound(f) && Dim(gain, N, M)
    requires forall i, j | 0 <= i < N && 0 <= j < M :: gain[i][j] == GainEntry(f, i, j)
    ensures SparseGain(gain)
  {
    forall i, k | 0 <= i < N && 0 <= k < M && k != Source(i)
      ensures gain[i][k] == 0.0
    {
      ZeroOver(InnovationVariance(f, k));
    }
  }

  lemma TimesNegates(a: real, b: real)
    ensures Times(-a, b) == -Times(a, b)
  {
  }

  /** The two off-diagonal entries of an updated block agree: pv - (pv / s) pp = (1 - pp / s) pv. */
  lemma UpdateIsSymmetric(pp: real, pv: real, s: real)
    requires s != 0.0
    ensures pv - Times(pv / s, pp) == Times(1.0 - pp / s, pv)
  {
    QuotientTimes(pp, s);
    QuotientTimes(pv, s);
    var a, b := pv / s, pp / s;
    assert a * pp == a * (b * s) == b * (a * s);
  }

  lemma UpdateEmbeddedState(f: Filter, z: Vector, gain: Dense, i: nat)
    requires Sound(f) && |z| == M && SparseGain(gain) && i < N
    requires forall i, j | 0 <= i < N && 0 <= j < M :: gain[i][j] == GainEntry(f, i, j)
    ensures Correct(Embed(f), z, gain).x[i] == Embed(UpdateFilter(f, z)).x[i]
  {
    hide Correct, Times;
    CorrectedState(Embed(f), z, gain, i);
  }

  lemma UpdatedAxis(f: Filter, z: Vector, i: nat)
    requires Sound(f) && |z| == M && i < 3
    ensures InnovationVariance(f, i) == AxisOf(f, i).pp + Noise(i)
    ensures AxisOf(f, i).pp + Noise(i) != 0.0
    ensures AxisOf(UpdateFilter(f, z), i) == UpdateAxis(AxisOf(f, i), Noise(i), z[i])
  {
  }

  lemma MeasuredRowOfBlocks(f: Filter, z: Vector, i: nat, j: nat)
    requires Sound(f) && |z| == M && i < M && j < N
    ensures Covariance(UpdateFilter(f, z), i, j) == Times(1.0 - GainEntry(f, i, i), Covariance(f, i, j))
  {
    TimesUnit(1.0 - GainEntry(f, i, i));
    if i < 3 {
      UpdatedAxis(f, z, i);
      hide Times, AxisOf, UpdateFilter, Sound;
    }
  }

  lemma VelocityRowOfBlocks(f: Filter, z: Vector, i: nat, j: nat)
    requires Sound(f) && |z| == M && M <= i < N && j < N
    ensures Covariance(UpdateFilter(f, z), i, j)
         == Covariance(f, i, j) - Times(GainEntry(f, i, i - 4), Covariance(f, i - 4, j))
  {
    var a, g := AxisOf(f, i - 4), GainEntry(f, i, i - 4);
    UpdatedAxis(f, z, i - 4);
    UpdateIsSymmetric(a.pp, a.pv, InnovationVariance(f, i - 4));
    TimesUnit(g);
    hide Times, AxisOf, UpdateFilter, Sound;
  }

  lemma UpdatedMeasuredRow(f: Filter, z: Vector, gain: Dense, i: nat, j: nat)
    requires Sound(f) && |z| == M && SparseGain(gain) && i < M && j < N
    requires gain[i][i] == GainEntry(f, i, i)
    ensures Correct(Embed(f), z, gain).P[i][j] == Covariance(UpdateFilter(f, z), i, j)
  {
    hide Correct, Times, Covariance, UpdateFilter, GainEntry;
    CorrectedCovariance(Embed(f), z, gain, i, j);
    MeasuredRowOfBlocks(f, z, i, j);
  }

  lemma UpdatedVelocityRow(f: Filter, z: Vector, gain: Dense, i: nat, j: nat)
    requires Sound(f) && |z| == M && SparseGain(gain) && M <= i < N && j < N
    requires gain[i][i - 4] == GainEntry(f, i, i - 4)
    ensures Correct(Embed(f), z, gain).P[i][j] == Covariance(UpdateFilter(f, z), i, j)
  {
    hide Correct, Times, Covariance, UpdateFilter, GainEntry;
    CorrectedCovariance(Embed(f), z, gain, i, j);
    TimesNegates(gain[i][i - 4], Covariance(f, i - 4, j));
    VelocityRowOfBlocks(f, z, i, j);
  }

  /** One dense update, whatever inverse is used, is one update of each block. */
  lemma UpdateEmbedded(inverse: Inverter, f: Filter, z: Vector)
    requires Sound(f) && |z| == M
    ensures Update(inverse, Embed(f), z) == Embed(UpdateFilter(f, z))
  {
    GainEntries(inverse, f);
    var t := inverse(InnovationCovariance(Embed(f).P), M);
    var gain := KalmanGain(Embed(f).P, t);
    hide KalmanGain, InnovationCovariance;
    EmbeddedGainIsSparse(f, gain);
    var s, e := Correct(Embed(f), z, gain), Embed(UpdateFilter(f, z));
    forall i | 0 <= i < N
      ensures s.x[i] == e.x[i]
    {
      UpdateEmbeddedState(f, z, gain, i);
    }
    forall i, j | 0 <= i < N && 0 <= j < N
      ensures s.P[i][j] == e.P[i][j]
    {
      if i < M {
        UpdatedMeasuredRow(f, z, gain, i, j);
      } else {
        UpdatedVelocityRow(f, z, gain, i, j);
      }
    }
    DenseEqual(s.P, e.P, N, N);
  }
}
