// The linear assignment problem: the contract of the foreign solver, what optimality implies for
// single pairs, and a reference solver that shows the contract can be met.

module Assignments {
  import opened Collections

  type Matrix = seq<seq<real>>

  /** The marker of a row with no column. */
  const FREE := -1

  predicate Shaped(w: Matrix, m: nat) {
    forall i | 0 <= i < |w| :: |w[i]| == m
  }

  /** a[i] is the column paired with row i, or FREE. No column is used twice. */
  predicate Partial(a: seq<int>, n: nat, m: nat) {
    && |a| == n
    && (forall i | 0 <= i < n :: FREE <= a[i] < m)
    && (forall i, j | 0 <= i < j < n :: a[i] != FREE ==> a[i] != a[j])
  }

  function Size(a: seq<int>): (k: nat)
    ensures k <= |a|
  {
    if a == [] then 0 else Size(a[..|a| - 1]) + (if a[|a| - 1] == FREE then 0 else 1)
  }

  function Smaller(n: nat, m: nat): nat {
    if n <= m then n else m
  }

  /** The solver returns min(n, m) pairs. */
  predicate Complete(a: seq<int>, n: nat, m: nat) {
    Partial(a, n, m) && Size(a) == Smaller(n, m)
  }

  function Value(w: Matrix, m: nat, i: nat, c: int): real
    requires Shaped(w, m) && i < |w| && FREE <= c < m
  {
    if c == FREE then 0.0 else w[i][c]
  }

  /** The total over the first k rows. */
  function Total(w: Matrix, m: nat, a: seq<int>, k: nat): real
    requires Shaped(w, m) && Partial(a, |w|, m) && k <= |w|
  {
    if k == 0 then 0.0 else Total(w, m, a, k - 1) + Value(w, m, k - 1, a[k - 1])
  }

  function Weight(w: Matrix, m: nat, a: seq<int>): real
    requires Shaped(w, m) && Partial(a, |w|, m)
  {
    Total(w, m, a, |w|)
  }

  /** What scipy's linear_sum_assignment promises: a complete assignment of least total cost. */
  ghost predicate LeastCost(cost: Matrix, m: nat, a: seq<int>)
    requires Shaped(cost, m)
  {
    && Complete(a, |cost|, m)
    && forall b | Complete(b, |cost|, m) :: Weight(cost, m, a) <= Weight(cost, m, b)
  }

  ghost predicate IsSolver(f: (Matrix, nat) -> seq<int>) {
    forall cost: Matrix, m: nat | Shaped(cost, m) :: LeastCost(cost, m, f(cost, m))
  }

  // ---- Changing one row ----

  lemma {:induction false} SizeUpdate(a: seq<int>, i: nat, c: int)
    requires i < |a|
    ensures Size(a[i := c]) == Size(a) - (if a[i] == FREE then 0 else 1) + (if c == FREE then 0 else 1)
  {
    var n := |a| - 1;
    if i == n {
      assert a[i := c][..n] == a[..n];
    } else {
      assert a[i := c][..n] == a[..n][i := c];
      SizeUpdate(a[..n], i, c);
    }
  }

  lemma {:induction false} TotalUpdate(w: Matrix, m: nat, a: seq<int>, i: nat, c: int, k: nat)
    requires Shaped(w, m) && Partial(a, |w|, m) && k <= |w| && i < |w|
    requires FREE <= c < m && Partial(a[i := c], |w|, m)
    ensures Total(w, m, a[i := c], k)
         == Total(w, m, a, k) + (if i < k then Value(w, m, i, c) - Value(w, m, i, a[i]) else 0.0)
  {
    if k > 0 {
      TotalUpdate(w, m, a, i, c, k - 1);
    }
  }

  // ---- Counting: which rows and columns are used ----

  function Used(a: seq<int>): (s: set<int>)
    ensures forall c :: c in s <==> c != FREE && c in a
  {
    set c | c in a && c != FREE
  }

  lemma {:induction false} UsedCount(a: seq<int>, n: nat, m: nat)
    requires Partial(a, n, m)
    ensures |Used(a)| == Size(a)
  {
    if n == 0 {
      assert Used(a) == {};
    } else {
      var b, c := a[..n - 1], a[n - 1];
      assert a == b + [c];
      UsedCount(b, n - 1, m);
      if c == FREE {
        assert Used(a) == Used(b);
      } else {
        assert c !in b;
        assert Used(a) == Used(b) + {c};
      }
    }
  }

  lemma SubsetOfSameSize(s: set<int>, t: set<int>)
    requires s <= t
    ensures |s| <= |t|
    ensures |s| == |t| ==> s == t
  {
    assert |t - s| == |t| - |s| by {
      assert t == s + (t - s);
    }
    if |t - s| == 0 {
      assert t - s == {};
    }
  }

  lemma UsedWithinRange(a: seq<int>, n: nat, m: nat)
    requires Partial(a, n, m)
    ensures Size(a) <= m
    ensures Size(a) == m ==> forall c | 0 <= c < m :: c in a
    ensures Size(a) < m ==> exists c :: 0 <= c < m && c !in a
  {
    UsedCount(a, n, m);
    SubsetOfSameSize(Used(a), Between(0, m));
    if Size(a) == m {
      forall c | 0 <= c < m
        ensures c in a
      {
        assert c in Between(0, m);
      }
    }
    if Size(a) < m {
      assert Used(a) != Between(0, m);
      var c :| c in Between(0, m) && c !in Used(a);
    }
  }

  lemma {:induction false} FullWhenAllAssigned(a: seq<int>)
    ensures Size(a) < |a| ==> exists i :: 0 <= i < |a| && a[i] == FREE
    ensures Size(a) == |a| ==> forall i | 0 <= i < |a| :: a[i] != FREE
  {
    if a != [] {
      var b := a[..|a| - 1];
      FullWhenAllAssigned(b);
      if Size(b) < |b| {
        var i :| 0 <= i < |b| && b[i] == FREE;
        assert a[i] == FREE;
      } else if a[|a| - 1] == FREE {
        assert a[|a| - 1] == FREE;
      } else {
        forall i | 0 <= i < |a|
          ensures a[i] != FREE
        {
          assert i < |b| ==> a[i] == b[i];
        }
      }
    }
  }

  /** A complete assignment never leaves a row and a column free at the same time. */
  lemma CompleteLeavesNoFreePair(a: seq<int>, n: nat, m: nat, i: nat, d: nat)
    requires Complete(a, n, m) && i < n && d < m
    ensures a[i] != FREE || d in a
  {
    FullWhenAllAssigned(a);
    UsedWithinRange(a, n, m);
  }

  // ---- Every partial assignment extends to a complete one ----

  lemma ExtendByOne(a: seq<int>, n: nat, m: nat) returns (i: nat, c: nat)
    requires Partial(a, n, m) && Size(a) < Smaller(n, m)
    ensures i < n && c < m && a[i] == FREE
    ensures Partial(a[i := c], n, m) && Size(a[i := c]) == Size(a) + 1
  {
    FullWhenAllAssigned(a);
    UsedWithinRange(a, n, m);
    i :| i < n && a[i] == FREE;
    c :| c < m && c !in a;
    SizeUpdate(a, i, c);
  }

  lemma {:induction false} Extend(w: Matrix, m: nat, a: seq<int>) returns (b: seq<int>)
    requires Shaped(w, m) && Partial(a, |w|, m)
    ensures Complete(b, |w|, m)
    ensures (forall i, c | 0 <= i < |w| && 0 <= c < m :: w[i][c] >= 0.0) ==> Weight(w, m, b) >= Weight(w, m, a)
    decreases Smaller(|w|, m) - Size(a)
  {
    UsedWithinRange(a, |w|, m);
    if Size(a) == Smaller(|w|, m) {
      b := a;
    } else {
      var i, c := ExtendByOne(a, |w|, m);
      TotalUpdate(w, m, a, i, c, |w|);
      b := Extend(w, m, a[i := c]);
    }
  }

  // ---- A reference solver: enumerate, then pick the cheapest ----

  predicate Appendable(b: seq<int>, c: int, m: nat) {
    FREE <= c < m && (c == FREE || c !in b)
  }

  function Extensions(b: seq<int>, c: int, m: nat): (s: seq<seq<int>>)
    requires FREE <= c <= m
    ensures forall e | e in s :: |e| == |b| + 1 && e[..|b|] == b && c <= e[|b|] && Appendable(b, e[|b|], m)
    ensures forall d | c <= d && Appendable(b, d, m) :: b + [d] in s
    decreases m - c
  {
    if c == m then []
    else if Appendable(b, c, m) then
      [b + [c]] + Extensions(b, c + 1, m)
    else Extensions(b, c + 1, m)
  }

  function ExtendAll(bs: seq<seq<int>>, m: nat): seq<seq<int>> {
    if bs == [] then [] else Extensions(bs[0], FREE, m) + ExtendAll(bs[1..], m)
  }

  lemma {:induction false} ExtendAllMembers(bs: seq<seq<int>>, m: nat, e: seq<int>)
    ensures e in ExtendAll(bs, m) <==>
              |e| > 0 && e[..|e| - 1] in bs && Appendable(e[..|e| - 1], e[|e| - 1], m)
  {
    if bs != [] {
      ExtendAllMembers(bs[1..], m, e);
      if |e| > 0 && e[..|e| - 1] == bs[0] {
        assert e == bs[0] + [e[|e| - 1]];
      }
    }
  }

  /** All partial assignments of n rows to m columns. */
  function AllPartial(n: nat, m: nat): seq<seq<int>> {
    if n == 0 then [[]] else ExtendAll(AllPartial(n - 1, m), m)
  }

  lemma PartialByLastRow(b: seq<int>, c: int, m: nat)
    ensures Partial(b + [c], |b| + 1, m) <==> Partial(b, |b|, m) && Appendable(b, c, m)
  {
    var a := b + [c];
    assert a[|b|] == c;
    assert forall i | 0 <= i < |b| :: a[i] == b[i];
  }

  lemma ExtendAllIsExact(shorter: seq<seq<int>>, n: nat, m: nat, a: seq<int>)
    requires |a| > 0 ==> (a[..|a| - 1] in shorter <==> Partial(a[..|a| - 1], n, m))
    ensures a in ExtendAll(shorter, m) <==> Partial(a, n + 1, m)
  {
    ExtendAllMembers(shorter, m, a);
    if |a| == n + 1 {
      var b, c := a[..n], a[n];
      assert a == b + [c];
      PartialByLastRow(b, c, m);
    }
  }

  lemma NoRowsIsExact(m: nat, a: seq<int>)
    ensures a in AllPartial(0, m) <==> Partial(a, 0, m)
  {
  }

  lemma {:induction false} AllPartialIsExact(n: nat, m: nat, a: seq<int>)
    ensures a in AllPartial(n, m) <==> Partial(a, n, m)
  {
    hide Partial, ExtendAll;
    if n == 0 {
      NoRowsIsExact(m, a);
    } else {
      var shorter := AllPartial(n - 1, m);
      assert AllPartial(n, m) == ExtendAll(shorter, m);
      if |a| > 0 {
        AllPartialIsExact(n - 1, m, a[..|a| - 1]);
      }
      hide *;
      ExtendAllIsExact(shorter, n - 1, m, a);
    }
  }

  predicate BetterThan(cost: Matrix, m: nat, a: seq<int>, b: seq<int>)
    requires Shaped(cost, m)
  {
    && Complete(a, |cost|, m)
    && (Complete(b, |cost|, m) ==> Weight(cost, m, a) <= Weight(cost, m, b))
  }

  /** The cheapest complete candidate of a list; all-FREE when there is none. */
  function Cheapest(cost: Matrix, m: nat, candidates: seq<seq<int>>): (best: seq<int>)
    requires Shaped(cost, m)
    ensures forall b | b in candidates && Complete(b, |cost|, m) :: BetterThan(cost, m, best, b)
  {
    if candidates == [] then seq(|cost|, i => FREE)
    else
      var rest := Cheapest(cost, m, candidates[1..]);
      if BetterThan(cost, m, candidates[0], rest) then candidates[0] else rest
  }

  lemma EnumerationIsOptimal(cost: Matrix, m: nat)
    requires Shaped(cost, m)
    ensures LeastCost(cost, m, Cheapest(cost, m, AllPartial(|cost|, m)))
  {
    var all := AllPartial(|cost|, m);
    forall b | Complete(b, |cost|, m)
      ensures b in all
    {
      AllPartialIsExact(|cost|, m, b);
    }
    var empty := seq(|cost|, i => FREE);
    assert Partial(empty, |cost|, m);
    var some := Extend(cost, m, empty);
    assert BetterThan(cost, m, Cheapest(cost, m, all), some);
  }

  /** Exhaustive search meets the contract of linear_sum_assignment on every matrix. */
  function ReferenceSolve(cost: Matrix, m: nat): (a: seq<int>)
    ensures Shaped(cost, m) ==> LeastCost(cost, m, a)
  {
    if Shaped(cost, m) then
      var a := Cheapest(cost, m, AllPartial(|cost|, m));
      EnumerationIsOptimal(cost, m);
      a
    else []
  }

  /** Any function that meets the solver's contract. */
  type Solver = f: (Matrix, nat) -> seq<int> | IsSolver(f)
    ghost witness (cost: Matrix, m: nat) => ReferenceSolve(cost, m)

  // ---- Maximising by negating, as match_by_iou does ----

  function Negate(w: Matrix): (v: Matrix)
    ensures |v| == |w| && forall i | 0 <= i < |w| :: |v[i]| == |w[i]|
  {
    seq(|w|, i requires 0 <= i < |w| => seq(|w[i]|, j requires 0 <= j < |w[i]| => -w[i][j]))
  }

  lemma {:induction false} NegatedTotal(w: Matrix, m: nat, a: seq<int>, k: nat)
    requires Shaped(w, m) && Partial(a, |w|, m) && k <= |w|
    ensures Total(Negate(w), m, a, k) == -Total(w, m, a, k)
  {
    if k > 0 {
      NegatedTotal(w, m, a, k - 1);
    }
  }

  ghost predicate Heaviest(w: Matrix, m: nat, a: seq<int>)
    requires Shaped(w, m)
  {
    && Complete(a, |w|, m)
    && forall b | Complete(b, |w|, m) :: Weight(w, m, b) <= Weight(w, m, a)
  }

  lemma SolverMaximises(solver: Solver, w: Matrix, m: nat)
    requires Shaped(w, m)
    ensures Heaviest(w, m, solver(Negate(w), m))
  {
    var a := solver(Negate(w), m);
    assert LeastCost(Negate(w), m, a);
    forall b | Complete(b, |w|, m)
      ensures Weight(w, m, b) <= Weight(w, m, a)
    {
      NegatedTotal(w, m, a, |w|);
      NegatedTotal(w, m, b, |w|);
    }
  }

  // ---- What optimality says about single pairs ----

  lemma WeightUpdate(w: Matrix, m: nat, a: seq<int>, i: nat, c: int)
    requires Shaped(w, m) && Partial(a, |w|, m) && i < |w|
    requires FREE <= c < m && Partial(a[i := c], |w|, m)
    ensures Weight(w, m, a[i := c]) == Weight(w, m, a) + Value(w, m, i, c) - Value(w, m, i, a[i])
  {
    TotalUpdate(w, m, a, i, c, |w|);
  }

  function Swapped(a: seq<int>, i: nat, j: nat): (b: seq<int>)
    requires i < |a| && j < |a|
  {
    a[i := FREE][j := a[i]][i := a[j]]
  }

  lemma SwapKeepsComplete(a: seq<int>, n: nat, m: nat, i: nat, j: nat)
    requires Complete(a, n, m) && i < n && j < n && i != j && a[i] != FREE && a[j] != FREE
    ensures Partial(a[i := FREE], n, m) && Partial(a[i := FREE][j := a[i]], n, m)
    ensures Complete(Swapped(a, i, j), n, m)
  {
    var b := a[i := FREE];
    var c := b[j := a[i]];
    assert Partial(b, n, m) && a[i] !in b;
    assert Partial(c, n, m) && a[j] !in c;
    assert Partial(c[i := a[j]], n, m);
    hide Partial;
    SizeUpdate(a, i, FREE);
    SizeUpdate(b, j, a[i]);
    SizeUpdate(c, i, a[j]);
  }

  /** Swapping the columns of two assigned rows does not raise the total. */
  lemma NoSwapHelps(w: Matrix, m: nat, a: seq<int>, i: nat, j: nat)
    requires Shaped(w, m) && Heaviest(w, m, a)
    requires i < |w| && j < |w| && i != j && a[i] != FREE && a[j] != FREE
    ensures w[i][a[j]] + w[j][a[i]] <= w[i][a[i]] + w[j][a[j]]
  {
    SwapKeepsComplete(a, |w|, m, i, j);
    var b := a[i := FREE];
    var c := b[j := a[i]];
    WeightUpdate(w, m, a, i, FREE);
    WeightUpdate(w, m, b, j, a[i]);
    WeightUpdate(w, m, c, i, a[j]);
  }

  /** Moving an assigned row to a free column does not raise the total. */
  lemma NoMoveHelps(w: Matrix, m: nat, a: seq<int>, i: nat, d: nat)
    requires Shaped(w, m) && Heaviest(w, m, a)
    requires i < |w| && d < m && a[i] != FREE && d !in a
    ensures w[i][d] <= w[i][a[i]]
  {
    SizeUpdate(a, i, d);
    WeightUpdate(w, m, a, i, d);
  }

  /** Giving an assigned row's column to a free row does not raise the total. */
  lemma NoTakeoverHelps(w: Matrix, m: nat, a: seq<int>, i: nat, j: nat)
    requires Shaped(w, m) && Heaviest(w, m, a)
    requires i < |w| && j < |w| && a[i] == FREE && a[j] != FREE
    ensures w[i][a[j]] <= w[j][a[j]]
  {
    var b := a[j := FREE];
    SizeUpdate(a, j, FREE);
    SizeUpdate(b, i, a[j]);
    WeightUpdate(w, m, a, j, FREE);
    WeightUpdate(w, m, b, i, a[j]);
  }

  /** With non-negative weights the optimum bounds every partial assignment, complete or not. */
  lemma BoundsPartial(w: Matrix, m: nat, a: seq<int>, b: seq<int>)
    requires Shaped(w, m) && Heaviest(w, m, a) && Partial(b, |w|, m)
    requires forall i, c | 0 <= i < |w| && 0 <= c < m :: w[i][c] >= 0.0
    ensures Weight(w, m, b) <= Weight(w, m, a)
  {
    var full := Extend(w, m, b);
  }
}
