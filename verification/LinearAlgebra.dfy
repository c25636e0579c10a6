// Dense vectors and matrices over the reals, with the lemmas that evaluate sparse products.

module LinearAlgebra {
  import opened RealFacts

  type Vector = seq<real>
  type Dense = seq<seq<real>>

  predicate Dim(a: Dense, n: nat, m: nat) {
    |a| == n && forall i | 0 <= i < n :: |a[i]| == m
  }

  /** The inner product of the first n components. */
  function Dot(u: Vector, v: Vector, n: nat): real
    requires n <= |u| && n <= |v|
  {
    if n == 0 then 0.0 else Dot(u, v, n - 1) + u[n - 1] * v[n - 1]
  }

  function Column(a: Dense, n: nat, m: nat, j: nat): (c: Vector)
    requires Dim(a, n, m) && j < m
    ensures |c| == n && forall i | 0 <= i < n :: c[i] == a[i][j]
  {
    seq(n, i requires 0 <= i < n => a[i][j])
  }

  /** The product of an n-by-k and a k-by-m matrix. */
  function Product(a: Dense, b: Dense, n: nat, k: nat, m: nat): (c: Dense)
    requires Dim(a, n, k) && Dim(b, k, m)
    ensures Dim(c, n, m)
    ensures forall i, j | 0 <= i < n && 0 <= j < m :: c[i][j] == Dot(a[i], Column(b, k, m, j), k)
  {
    seq(n, i requires 0 <= i < n => seq(m, j requires 0 <= j < m => Dot(a[i], Column(b, k, m, j), k)))
  }

  function Apply(a: Dense, x: Vector, n: nat, k: nat): (y: Vector)
    requires Dim(a, n, k) && |x| == k
    ensures |y| == n && forall i | 0 <= i < n :: y[i] == Dot(a[i], x, k)
  {
    seq(n, i requires 0 <= i < n => Dot(a[i], x, k))
  }

  function Transposed(a: Dense, n: nat, m: nat): (b: Dense)
    requires Dim(a, n, m)
    ensures Dim(b, m, n)
    ensures forall i, j | 0 <= i < m && 0 <= j < n :: b[i][j] == a[j][i]
  {
    seq(m, i requires 0 <= i < m => Column(a, n, m, i))
  }

  function Sum(a: Dense, b: Dense, n: nat, m: nat): (c: Dense)
    requires Dim(a, n, m) && Dim(b, n, m)
    ensures Dim(c, n, m)
    ensures forall i, j | 0 <= i < n && 0 <= j < m :: c[i][j] == a[i][j] + b[i][j]
  {
    seq(n, i requires 0 <= i < n => seq(m, j requires 0 <= j < m => a[i][j] + b[i][j]))
  }

  function Difference(a: Dense, b: Dense, n: nat, m: nat): (c: Dense)
    requires Dim(a, n, m) && Dim(b, n, m)
    ensures Dim(c, n, m)
    ensures forall i, j | 0 <= i < n && 0 <= j < m :: c[i][j] == a[i][j] - b[i][j]
  {
    seq(n, i requires 0 <= i < n => seq(m, j requires 0 <= j < m => a[i][j] - b[i][j]))
  }

  function VectorSum(x: Vector, y: Vector): (z: Vector)
    requires |x| == |y|
    ensures |z| == |x| && forall i | 0 <= i < |x| :: z[i] == x[i] + y[i]
  {
    seq(|x|, i requires 0 <= i < |x| => x[i] + y[i])
  }

  function VectorDifference(x: Vector, y: Vector): (z: Vector)
    requires |x| == |y|
    ensures |z| == |x| && forall i | 0 <= i < |x| :: z[i] == x[i] - y[i]
  {
    seq(|x|, i requires 0 <= i < |x| => x[i] - y[i])
  }

  /** A matrix with the given entry function. */
  function Tabulate(n: nat, m: nat, e: (nat, nat) -> real): (a: Dense)
    ensures Dim(a, n, m)
    ensures forall i, j | 0 <= i < n && 0 <= j < m :: a[i][j] == e(i, j)
  {
    seq(n, i requires 0 <= i < n => seq(m, j requires 0 <= j < m => e(i, j)))
  }

  function Eye(n: nat): (a: Dense)
    ensures Dim(a, n, n)
    ensures forall i, j | 0 <= i < n && 0 <= j < n :: a[i][j] == if i == j then 1.0 else 0.0
  {
    Tabulate(n, n, (i, j) => if i == j then 1.0 else 0.0)
  }

  // ---- Inverses ----

  ghost predicate IsInverse(s: Dense, t: Dense, n: nat) {
    && Dim(s, n, n) && Dim(t, n, n)
    && Product(s, t, n, n, n) == Eye(n)
    && Product(t, s, n, n, n) == Eye(n)
  }

  /** What numpy's linalg.inv promises: an inverse, for every matrix that has one. */
  ghost predicate Inverts(f: (Dense, nat) -> Dense) {
    forall s: Dense, n: nat | exists t :: IsInverse(s, t, n) :: IsInverse(s, f(s, n), n)
  }

  ghost function SomeInverse(s: Dense, n: nat): (t: Dense)
    ensures (exists u :: IsInverse(s, u, n)) ==> IsInverse(s, t, n)
  {
    if u: Dense :| IsInverse(s, u, n) then u else s
  }

  type Inverter = f: (Dense, nat) -> Dense | Inverts(f) ghost witness (s: Dense, n: nat) => SomeInverse(s, n)

  // ---- Products with few non-zero terms ----

  /** At most one term of the inner product is non-zero. */
  lemma {:induction false} DotOne(u: Vector, v: Vector, n: nat, p: nat)
    requires n <= |u| && n <= |v|
    requires forall k | 0 <= k < n && k != p :: u[k] == 0.0 || v[k] == 0.0
    ensures Dot(u, v, n) == if p < n then Times(u[p], v[p]) else 0.0
  {
    if n > 0 {
      DotOne(u, v, n - 1, p);
    }
  }

  /** At most two terms of the inner product are non-zero. */
  lemma {:induction false} DotTwo(u: Vector, v: Vector, n: nat, p: nat, q: nat)
    requires n <= |u| && n <= |v| && p < q
    requires forall k | 0 <= k < n && k != p && k != q :: u[k] == 0.0 || v[k] == 0.0
    ensures Dot(u, v, n) == (if p < n then Times(u[p], v[p]) else 0.0) + (if q < n then Times(u[q], v[q]) else 0.0)
  {
    if n > 0 {
      DotTwo(u, v, n - 1, p, q);
    }
  }

  predicate Diagonal(s: Dense, n: nat) {
    Dim(s, n, n) && forall i, j | 0 <= i < n && 0 <= j < n && i != j :: s[i][j] == 0.0
  }

  function Reciprocals(s: Dense, n: nat): (t: Dense)
    requires Dim(s, n, n) && forall i | 0 <= i < n :: s[i][i] != 0.0
    ensures Diagonal(t, n) && forall i | 0 <= i < n :: t[i][i] == 1.0 / s[i][i]
  {
    seq(n, i requires 0 <= i < n => seq(n, j requires 0 <= j < n => if i == j then 1.0 / s[i][i] else 0.0))
  }

  lemma DenseEqual(a: Dense, b: Dense, n: nat, m: nat)
    requires Dim(a, n, m) && Dim(b, n, m)
    requires forall i, j | 0 <= i < n && 0 <= j < m :: a[i][j] == b[i][j]
    ensures a == b
  {
    forall i | 0 <= i < n
      ensures a[i] == b[i]
    {
    }
  }

  lemma DiagonalProduct(s: Dense, t: Dense, n: nat)
    requires Diagonal(s, n) && Dim(t, n, n)
    ensures forall i, j | 0 <= i < n && 0 <= j < n :: Product(s, t, n, n, n)[i][j] == Times(s[i][i], t[i][j])
  {
    forall i, j | 0 <= i < n && 0 <= j < n
      ensures Product(s, t, n, n, n)[i][j] == Times(s[i][i], t[i][j])
    {
      DotOne(s[i], Column(t, n, n, j), n, i);
    }
  }

  lemma ReciprocalTimes(a: real)
    requires a != 0.0
    ensures Times(a, 1.0 / a) == 1.0 && Times(1.0 / a, a) == 1.0
    ensures Times(a, 0.0) == 0.0 && Times(1.0 / a, 0.0) == 0.0
  {
  }

  lemma DiagonalInverse(s: Dense, n: nat)
    requires Diagonal(s, n) && forall i | 0 <= i < n :: s[i][i] != 0.0
    ensures IsInverse(s, Reciprocals(s, n), n)
  {
    var t := Reciprocals(s, n);
    hide Times, Product;
    DiagonalProduct(s, t, n);
    DiagonalProduct(t, s, n);
    forall i | 0 <= i < n
      ensures Times(s[i][i], t[i][i]) == 1.0 && Times(t[i][i], s[i][i]) == 1.0
      ensures Times(s[i][i], 0.0) == 0.0 && Times(t[i][i], 0.0) == 0.0
    {
      ReciprocalTimes(s[i][i]);
    }
    DenseEqual(Product(s, t, n, n, n), Eye(n), n, n);
    DenseEqual(Product(t, s, n, n, n), Eye(n), n, n);
  }

  lemma SolveScalar(a: real, x: real)
    requires a != 0.0
    ensures Times(a, x) == 1.0 ==> x == 1.0 / a
    ensures Times(a, x) == 0.0 ==> x == 0.0
  {
  }

  /** Whatever inverse is returned for a non-singular diagonal matrix is the diagonal of reciprocals. */
  lemma InverterOnDiagonal(inverse: Inverter, s: Dense, n: nat)
    requires Diagonal(s, n) && forall i | 0 <= i < n :: s[i][i] != 0.0
    ensures inverse(s, n) == Reciprocals(s, n)
  {
    DiagonalInverse(s, n);
    var t := inverse(s, n);
    assert IsInverse(s, t, n);
    hide Times, Product;
    DiagonalProduct(s, t, n);
    forall i, j | 0 <= i < n && 0 <= j < n
      ensures t[i][j] == Reciprocals(s, n)[i][j]
    {
      SolveScalar(s[i][i], t[i][j]);
    }
    DenseEqual(t, Reciprocals(s, n), n, n);
  }
}
