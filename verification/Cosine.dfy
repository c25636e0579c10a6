// Cosine similarity stays within [-1, 1], so a match event always satisfies its schema.

module Cosines {
  import opened RealFacts
  import opened LinearAlgebra
  import opened Galleries

  /** An Euclidean norm: any function whose value squares to the inner product of its argument with itself. */
  ghost predicate IsNorm(norm: Vector -> real, a: Vector) {
    norm(a) >= 0.0 && norm(a) * norm(a) == Dot(a, a, |a|)
  }

  function Denominator(norm: Vector -> real, a: Vector, b: Vector): real {
    if norm(a) * norm(b) != 0.0 then norm(a) * norm(b) else 0.000000001
  }

  /** Vectors of different lengths have no inner product; the program raises an error, here the value is -1. */
  function Cosine(norm: Vector -> real): Similarity {
    (a: Vector, b: Vector) =>
      if |a| != |b| || Denominator(norm, a, b) == 0.0 then -1.0
      else Dot(a, b, |a|) / Denominator(norm, a, b)
  }

  lemma SquareGrows(q: real, p: real)
    requires q >= 0.0
    ensures p > q ==> p * p > q * q
  {
    assert p * p - q * q == (p - q) * (p + q);
    if p > q {
      ProductIncreases((p - q) / 2.0, (p + q) / 2.0, p - q, p + q);
      ProductMonotone(0.0, 0.0, (p - q) / 2.0, (p + q) / 2.0);
    }
  }

  lemma SquareOrder(p: real, q: real)
    requires p * p <= q * q && q >= 0.0
    ensures -q <= p <= q
  {
    SquareGrows(q, p);
    SquareGrows(q, -p);
    assert (-p) * (-p) == p * p;
  }

  lemma SquareIsNonNegative(x: real)
    ensures x * x >= 0.0
  {
  }

  lemma {:induction false} SquaredNormIsNonNegative(a: Vector, n: nat)
    requires n <= |a|
    ensures Dot(a, a, n) >= 0.0
  {
    if n > 0 {
      SquaredNormIsNonNegative(a, n - 1);
      SquareIsNonNegative(a[n - 1]);
    }
  }

  /** The mixed term of the induction step: 2dxy is at most ay² + bx² when d² is at most ab. */
  lemma MixedTerm(d: real, a: real, b: real, x: real, y: real)
    requires a >= 0.0 && b >= 0.0 && d * d <= a * b
    ensures 2.0 * d * x * y <= a * y * y + b * x * x
  {
    var p, u, v := 2.0 * d * x * y, a * y * y, b * x * x;
    SquareIsNonNegative(x);
    SquareIsNonNegative(y);
    var s := (x * y) * (x * y);
    SquareIsNonNegative(x * y);
    assert u >= 0.0 && v >= 0.0 by {
      ProductMonotone(0.0, 0.0, a, y * y);
      ProductMonotone(0.0, 0.0, b, x * x);
      assert a * (y * y) == u && b * (x * x) == v;
    }
    assert p * p == 4.0 * (d * d) * s;
    assert u * v == (a * b) * s;
    assert (d * d) * s <= (a * b) * s;
    assert (u + v) * (u + v) == (u - v) * (u - v) + 4.0 * (u * v);
    SquareIsNonNegative(u - v);
    SquareOrder(p, u + v);
  }

  lemma SquareOfSum(d: real, z: real)
    ensures (d + z) * (d + z) == d * d + 2.0 * d * z + z * z
  {
  }

  lemma ProductOfSums(a: real, b: real, p: real, q: real)
    ensures (a + p) * (b + q) == a * b + a * q + p * b + p * q
  {
  }

  /** One more component on each side keeps the inequality. */
  lemma BoundStep(d: real, a: real, b: real, x: real, y: real)
    requires a >= 0.0 && b >= 0.0 && d * d <= a * b
    ensures (d + x * y) * (d + x * y) <= (a + x * x) * (b + y * y)
  {
    MixedTerm(d, a, b, x, y);
    SquareOfSum(d, x * y);
    ProductOfSums(a, b, x * x, y * y);
    assert 2.0 * d * (x * y) == 2.0 * d * x * y;
    assert a * (y * y) == a * y * y && (x * x) * b == b * x * x;
    assert (x * y) * (x * y) == (x * x) * (y * y);
  }

  lemma DotMore(u: Vector, v: Vector, n: nat)
    requires 0 < n <= |u| && n <= |v|
    ensures Dot(u, v, n) == Dot(u, v, n - 1) + Times(u[n - 1], v[n - 1])
  {
  }

  lemma NextBound(a: Vector, b: Vector, n: nat)
    requires 0 < n <= |a| && n <= |b|
    requires Dot(a, b, n - 1) * Dot(a, b, n - 1) <= Dot(a, a, n - 1) * Dot(b, b, n - 1)
    ensures Dot(a, b, n) * Dot(a, b, n) <= Dot(a, a, n) * Dot(b, b, n)
  {
    hide Dot;
    SquaredNormIsNonNegative(a, n - 1);
    SquaredNormIsNonNegative(b, n - 1);
    BoundStep(Dot(a, b, n - 1), Dot(a, a, n - 1), Dot(b, b, n - 1), a[n - 1], b[n - 1]);
    DotMore(a, b, n);
    DotMore(a, a, n);
    DotMore(b, b, n);
  }

  /** The inequality of Cauchy and Schwarz. */
  lemma {:induction false} InnerProductBound(a: Vector, b: Vector, n: nat)
    requires n <= |a| && n <= |b|
    ensures Dot(a, b, n) * Dot(a, b, n) <= Dot(a, a, n) * Dot(b, b, n)
  {
    if n > 0 {
      InnerProductBound(a, b, n - 1);
      NextBound(a, b, n);
    }
  }

  lemma QuotientInUnit(p: real, q: real)
    requires q > 0.0 && -q <= p <= q
    ensures -1.0 <= p / q <= 1.0
  {
    QuotientMonotone(p, q, q);
    QuotientMonotone(-q, p, q);
    assert (-q) / q == -1.0;
  }

  /** The similarity lies between -1 and 1, also for vectors of norm zero. */
  lemma CosineInRange(norm: Vector -> real, a: Vector, b: Vector)
    requires IsNorm(norm, a) && IsNorm(norm, b)
    ensures -1.0 <= Cosine(norm)(a, b) <= 1.0
  {
    if |a| == |b| {
      var n, m := norm(a), norm(b);
      InnerProductBound(a, b, |a|);
      ProductMonotone(0.0, 0.0, n, m);
      assert (n * n) * (m * m) == (n * m) * (n * m);
      SquareOrder(Dot(a, b, |a|), n * m);
      QuotientInUnit(Dot(a, b, |a|), Denominator(norm, a, b));
    }
  }

  lemma SquareOfDifference(x: real, y: real)
    ensures Times(x - y, x - y) == Times(x, x) + Times(y, y) - 2.0 * Times(x, y)
  {
  }

  lemma {:induction false} DotOfDifference(a: Vector, b: Vector, d: Vector, n: nat)
    requires n <= |a| == |b| == |d| && forall i | 0 <= i < |d| :: d[i] == a[i] - b[i]
    ensures Dot(d, d, n) == Dot(a, a, n) + Dot(b, b, n) - 2.0 * Dot(a, b, n)
  {
    hide Times;
    if n > 0 {
      DotOfDifference(a, b, d, n - 1);
      SquareOfDifference(a[n - 1], b[n - 1]);
      DotMore(a, a, n);
      DotMore(b, b, n);
      DotMore(a, b, n);
      DotMore(d, d, n);
    }
  }

  lemma CosineTimesNorms(norm: Vector -> real, a: Vector, b: Vector)
    requires |a| == |b| && IsNorm(norm, a) && IsNorm(norm, b)
    ensures norm(a) * norm(b) * Cosine(norm)(a, b) == Dot(a, b, |a|)
    ensures norm(a) == 0.0 || norm(b) == 0.0 ==> Cosine(norm)(a, b) == 0.0
  {
    var n, m, dot := norm(a), norm(b), Dot(a, b, |a|);
    if n * m == 0.0 {
      InnerProductBound(a, b, |a|);
      assert (n * n) * (m * m) == (n * m) * (n * m);
      SquareOrder(dot, 0.0);
    }
  }

  /**
   * The law of cosines: the similarity is the cosine of the angle of the triangle that the two vectors span. Vectors of
   * norm zero have similarity 0.
   */
  lemma LawOfCosines(norm: Vector -> real, a: Vector, b: Vector)
    requires |a| == |b| && IsNorm(norm, a) && IsNorm(norm, b)
    ensures var d, n, m := VectorDifference(a, b), norm(a), norm(b);
            Dot(d, d, |d|) == n * n + m * m - 2.0 * (n * m * Cosine(norm)(a, b))
    ensures norm(a) == 0.0 || norm(b) == 0.0 ==> Cosine(norm)(a, b) == 0.0
  {
    DotOfDifference(a, b, VectorDifference(a, b), |a|);
    CosineTimesNorms(norm, a, b);
    hide Dot, Cosine;
  }

  predicate InSchema(m: ReidMatch) {
    0.0 <= m.similarity <= 1.0
  }

  ghost predicate NormsHold(norm: Vector -> real, candidates: Gallery, s: Sighting) {
    IsNorm(norm, s.embedding) && forall t | t in Flat(candidates) :: IsNorm(norm, t.entry.embedding)
  }

  /** Every match event carries a similarity the event schema accepts. */
  lemma EventInSchema(norm: Vector -> real, candidates: Gallery, s: Sighting, freshId: string)
    requires NormsHold(norm, candidates, s)
    ensures var event := Resolve(Cosine(norm), candidates, s, freshId).event; event.Some? ==> InSchema(event.value)
  {
    var ts := Flat(candidates);
    ScanIsFirstMaximum(Cosine(norm), s.embedding, ts);
    var b := Scan(Cosine(norm), s.embedding, ts);
    if b.Some? {
      var p: nat :| FirstMaximumAt(Cosine(norm), s.embedding, ts, b.value, p);
      assert ts[p] in ts;
      CosineInRange(norm, s.embedding, ts[p].entry.embedding);
    }
  }
}
