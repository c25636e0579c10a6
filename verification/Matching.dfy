// match_by_iou: solve the assignment, keep the pairs at or above the threshold, list what is left.

module Matching {
  import opened Collections
  import opened Boxes
  import opened Assignments

  type Pair = (nat, nat)

  predicate Assigning(a: seq<int>) {
    forall i | 0 <= i < |a| :: a[i] >= FREE
  }

  /** The pairs of the first n rows, in row order. */
  function Pairs(a: seq<int>, n: nat): seq<Pair>
    requires n <= |a| && Assigning(a)
  {
    if n == 0 then [] else Pairs(a, n - 1) + (if a[n - 1] == FREE then [] else [(n - 1, a[n - 1])])
  }

  /** The pair list holds exactly the assigned rows, in ascending order. */
  lemma {:induction false} PairsAreRows(a: seq<int>, n: nat)
    requires n <= |a| && Assigning(a)
    ensures forall i: nat, c: nat :: (i, c) in Pairs(a, n) <==> i < n && a[i] == c
    ensures forall p, q | 0 <= p < q < |Pairs(a, n)| :: Pairs(a, n)[p].0 < Pairs(a, n)[q].0
  {
    if n > 0 {
      PairsAreRows(a, n - 1);
      var rest := Pairs(a, n - 1);
      forall p | 0 <= p < |rest|
        ensures rest[p].0 < n - 1
      {
        assert (rest[p].0, rest[p].1) in rest;
      }
    }
  }

  /** The comprehension that lists the indices below n outside a set. */
  function Missing(used: set<int>, n: nat): seq<nat> {
    if n == 0 then [] else Missing(used, n - 1) + (if n - 1 in used then [] else [n - 1])
  }

  lemma {:induction false} MissingIsComplement(used: set<int>, n: nat)
    ensures Ascending(Missing(used, n))
    ensures forall i: nat :: i in Missing(used, n) <==> i < n && i !in used
  {
    if n > 0 {
      MissingIsComplement(used, n - 1);
      var rest := Missing(used, n - 1);
      forall p | 0 <= p < |rest|
        ensures rest[p] < n - 1
      {
        assert rest[p] in rest;
      }
    }
  }

  function AssignedRows(a: seq<int>): (rows: set<int>) {
    set i | 0 <= i < |a| && a[i] != FREE
  }

  /** The rows without a column, ascending. */
  function FreeRows(a: seq<int>): seq<nat> {
    Missing(AssignedRows(a), |a|)
  }

  /** The columns below m that no row uses, ascending. */
  function FreeColumns(a: seq<int>, m: nat): seq<nat> {
    Missing(Used(a), m)
  }

  function Unassigned(n: nat): (a: seq<int>)
    ensures |a| == n && forall i | 0 <= i < n :: a[i] == FREE
  {
    seq(n, i => FREE)
  }

  lemma {:induction false} UnassignedSize(n: nat)
    ensures Size(Unassigned(n)) == 0
  {
    if n > 0 {
      assert Unassigned(n)[..n - 1] == Unassigned(n - 1);
      UnassignedSize(n - 1);
    }
  }

  /** The solver's answer before filtering; the code does not call the solver when a side is empty. */
  function Solved(solver: Solver, tracks: seq<Box>, dets: seq<Box>): (a: seq<int>)
  {
    if tracks == [] || dets == [] then Unassigned(|tracks|)
    else solver(Negate(IouMatrix(tracks, dets)), |dets|)
  }

  lemma NothingAssigned(b: seq<int>, n: nat, m: nat)
    requires Partial(b, n, m) && (n == 0 || m == 0)
    ensures b == Unassigned(n)
  {
  }

  lemma SolvedIsHeaviest(solver: Solver, tracks: seq<Box>, dets: seq<Box>)
    ensures Heaviest(IouMatrix(tracks, dets), |dets|, Solved(solver, tracks, dets))
  {
    var w, n, m := IouMatrix(tracks, dets), |tracks|, |dets|;
    if tracks == [] || dets == [] {
      UnassignedSize(n);
      forall b | Complete(b, n, m)
        ensures Weight(w, m, b) <= Weight(w, m, Unassigned(n))
      {
        assert b == Unassigned(n) by {
          UsedWithinRange(b, n, m);
          NothingAssigned(b, n, m);
        }
      }
    } else {
      SolverMaximises(solver, w, m);
    }
  }

  /** Pairs below the threshold are taken out of the answer. */
  function Kept(w: Matrix, m: nat, a: seq<int>, t: real): (k: seq<int>)
    requires Shaped(w, m) && Partial(a, |w|, m)
    ensures Partial(k, |w|, m)
    ensures forall i | 0 <= i < |w| :: k[i] == FREE || (k[i] == a[i] && w[i][a[i]] >= t)
    ensures forall i | 0 <= i < |w| && k[i] == FREE :: a[i] == FREE || w[i][a[i]] < t
  {
    seq(|w|, i requires 0 <= i < |w| => if a[i] != FREE && w[i][a[i]] >= t then a[i] else FREE)
  }

  /** The association that match_by_iou describes: per track, its detection or FREE. */
  function Associate(solver: Solver, tracks: seq<Box>, dets: seq<Box>, t: real): (k: seq<int>)
    ensures Partial(k, |tracks|, |dets|)
  {
    SolvedIsHeaviest(solver, tracks, dets);
    Kept(IouMatrix(tracks, dets), |dets|, Solved(solver, tracks, dets), t)
  }

  lemma {:induction false} PairsOfUnassigned(n: nat, k: nat)
    requires k <= n
    ensures Pairs(Unassigned(n), k) == []
  {
    if k > 0 {
      PairsOfUnassigned(n, k - 1);
    }
  }

  /** list(range(n)) */
  lemma {:induction false} NothingMissing(n: nat)
    ensures Missing({}, n) == Span(0, n)
  {
    if n > 0 {
      NothingMissing(n - 1);
    }
  }

  lemma NoRows(k: seq<int>)
    requires Assigning(k)
    ensures Pairs(k, 0) == [] && AssignedRows(k[..0]) == {} && Used(k[..0]) == {}
  {
  }

  /** One more row of an assignment. */
  lemma OneMoreRow(k: seq<int>, row: nat)
    requires row < |k| && Assigning(k)
    ensures Pairs(k, row + 1) == Pairs(k, row) + (if k[row] == FREE then [] else [(row, k[row])])
    ensures AssignedRows(k[..row + 1]) == AssignedRows(k[..row]) + (if k[row] == FREE then {} else {row})
    ensures Used(k[..row + 1]) == Used(k[..row]) + (if k[row] == FREE then {} else {k[row]})
  {
    assert k[..row + 1] == k[..row] + [k[row]];
  }

  /** The loop that keeps the pairs at or above the threshold and records what they use. */
  method SelectMatches(ious: Matrix, m: nat, assignment: seq<int>, t: real)
    returns (matches: seq<Pair>, matchedTracks: set<int>, matchedDets: set<int>)
    requires Shaped(ious, m) && Partial(assignment, |ious|, m)
    ensures var k := Kept(ious, m, assignment, t);
            matches == Pairs(k, |k|) && matchedTracks == AssignedRows(k) && matchedDets == Used(k)
  {
    hide Pairs, AssignedRows, Used, Kept, Size;
    ghost var k := Kept(ious, m, assignment, t);
    NoRows(k);
    matches, matchedTracks, matchedDets := [], {}, {};
    for row := 0 to |ious|
      invariant matches == Pairs(k, row)
      invariant matchedTracks == AssignedRows(k[..row])
      invariant matchedDets == Used(k[..row])
    {
      var col := assignment[row];
      OneMoreRow(k, row);
      if col != FREE && ious[row][col] >= t {
        matches := matches + [(row, col)];
        matchedTracks := matchedTracks + {row};
        matchedDets := matchedDets + {col};
      }
    }
    assert k[..|ious|] == k;
  }

  method ListMissing(used: set<int>, n: nat) returns (free: seq<nat>)
    ensures free == Missing(used, n)
  {
    free := [];
    for i := 0 to n
      invariant free == Missing(used, i)
    {
      if i !in used {
        free := free + [i];
      }
    }
  }

  method MatchByIou(solver: Solver, tracks: seq<Box>, dets: seq<Box>, t: real)
    returns (matches: seq<Pair>, freeTracks: seq<nat>, freeDets: seq<nat>)
    ensures var k := Associate(solver, tracks, dets, t);
            && matches == Pairs(k, |k|)
            && freeTracks == FreeRows(k)
            && freeDets == FreeColumns(k, |dets|)
  {
    var n, m := |tracks|, |dets|;
    if tracks == [] || dets == [] {
      assert Associate(solver, tracks, dets, t) == Unassigned(n);
      assert AssignedRows(Unassigned(n)) == {} && Used(Unassigned(n)) == {};
      PairsOfUnassigned(n, n);
      NothingMissing(n);
      NothingMissing(m);
      return [], Span(0, n), Span(0, m);
    }
    var ious := IouMatrix(tracks, dets);
    SolvedIsHeaviest(solver, tracks, dets);
    var assignment := solver(Negate(ious), m);
    var matchedTracks, matchedDets;
    matches, matchedTracks, matchedDets := SelectMatches(ious, m, assignment, t);
    freeTracks := ListMissing(matchedTracks, n);
    freeDets := ListMissing(matchedDets, m);
  }

  // ---- What the association guarantees ----

  lemma {:induction false} PairCountIsSize(k: seq<int>, n: nat)
    requires n <= |k| && Assigning(k)
    ensures |Pairs(k, n)| == Size(k[..n])
  {
    if n > 0 {
      assert k[..n][..n - 1] == k[..n - 1];
      PairCountIsSize(k, n - 1);
    }
  }

  lemma {:induction false} RowCount(k: seq<int>)
    ensures |AssignedRows(k)| == Size(k)
  {
    if k == [] {
      assert AssignedRows(k) == {};
    } else {
      var n := |k| - 1;
      RowCount(k[..n]);
      if k[n] == FREE {
        assert AssignedRows(k) == AssignedRows(k[..n]);
      } else {
        assert AssignedRows(k) == AssignedRows(k[..n]) + {n};
      }
    }
  }

  lemma {:induction false} MissingIgnoresAbove(used: set<int>, big: nat, n: nat)
    requires n <= big
    ensures Missing(used - {big}, n) == Missing(used, n)
  {
    if n > 0 {
      MissingIgnoresAbove(used, big, n - 1);
    }
  }

  lemma {:induction false} MissingIgnoresLarge(used: set<int>, n: nat)
    ensures Missing(used - {n}, n) == Missing(used, n)
  {
    MissingIgnoresAbove(used, n, n);
  }

  lemma {:induction false} MissingCount(used: set<int>, n: nat)
    requires forall i | i in used :: 0 <= i < n
    ensures |Missing(used, n)| + |used| == n
  {
    if n == 0 {
      var none: set<int> := {};
      assert forall i :: i in used <==> i in none;
    } else if n - 1 in used {
      MissingCount(used - {n - 1}, n - 1);
      MissingIgnoresLarge(used, n - 1);
    } else {
      MissingCount(used, n - 1);
    }
  }

  lemma PartialPartitions(k: seq<int>, n: nat, m: nat)
    requires Partial(k, n, m)
    ensures var pairs, rows, cols := Pairs(k, |k|), FreeRows(k), FreeColumns(k, m);
            && |pairs| + |rows| == n
            && |pairs| + |cols| == m
            && (forall p, q | 0 <= p < q < |pairs| :: pairs[p].0 != pairs[q].0 && pairs[p].1 != pairs[q].1)
            && (forall p | 0 <= p < |pairs| :: pairs[p].0 !in rows && pairs[p].1 !in cols)
  {
    var pairs := Pairs(k, |k|);
    PairsAreRows(k, |k|);
    MissingIsComplement(AssignedRows(k), n);
    MissingIsComplement(Used(k), m);
    forall p | 0 <= p < |pairs|
      ensures pairs[p].0 < n && k[pairs[p].0] == pairs[p].1
    {
      assert (pairs[p].0, pairs[p].1) in pairs;
    }
    PairCountIsSize(k, n);
    assert k[..n] == k;
    UsedCount(k, n, m);
    RowCount(k);
    MissingCount(AssignedRows(k), n);
    MissingCount(Used(k), m);
  }

  /** The three results split both index ranges: every index is in exactly one list, once. */
  lemma ResultsPartition(solver: Solver, tracks: seq<Box>, dets: seq<Box>, t: real)
    ensures var k := Associate(solver, tracks, dets, t);
            var pairs, rows, cols := Pairs(k, |k|), FreeRows(k), FreeColumns(k, |dets|);
            && |pairs| + |rows| == |tracks|
            && |pairs| + |cols| == |dets|
            && (forall p, q | 0 <= p < q < |pairs| :: pairs[p].0 != pairs[q].0 && pairs[p].1 != pairs[q].1)
            && (forall p | 0 <= p < |pairs| :: pairs[p].0 !in rows && pairs[p].1 !in cols)
  {
    var k := Associate(solver, tracks, dets, t);
    hide Associate;
    PartialPartitions(k, |tracks|, |dets|);
  }

  /** A track and a detection that are both left over overlap by less than twice the threshold. */
  lemma LeftoversBarelyOverlap(solver: Solver, tracks: seq<Box>, dets: seq<Box>, t: real, i: nat, d: nat)
    requires i < |tracks| && d < |dets|
    ensures var k := Associate(solver, tracks, dets, t);
            k[i] == FREE && d !in k ==> Iou(tracks[i], dets[d]) < 2.0 * t
  {
    var w, m, a := IouMatrix(tracks, dets), |dets|, Solved(solver, tracks, dets);
    SolvedIsHeaviest(solver, tracks, dets);
    CompleteLeavesNoFreePair(a, |tracks|, m, i, d);
    IouRange(tracks[i], dets[d]);
    var k := Associate(solver, tracks, dets, t);
    if k[i] == FREE && d !in k {
      if d in a {
        var j: nat :| j < |tracks| && a[j] == d;
        if a[i] == FREE {
          NoTakeoverHelps(w, m, a, i, j);
        } else if j != i {
          IouRange(tracks[j], dets[a[i]]);
          NoSwapHelps(w, m, a, i, j);
        }
        assert w[j][d] < t;
      } else {
        NoMoveHelps(w, m, a, i, d);
      }
    }
  }

  /** Both rows are matched, and exchanging their columns gains nothing. */
  predicate ExchangeIsIdle(w: Matrix, m: nat, k: seq<int>, i: nat, j: nat)
    requires Shaped(w, m) && Partial(k, |w|, m) && i < |w| && j < |w|
  {
    k[i] != FREE && k[j] != FREE ==> w[i][k[j]] + w[j][k[i]] <= w[i][k[i]] + w[j][k[j]]
  }

  /** Every match reaches the threshold, and exchanging the detections of two matches gains nothing. */
  lemma MatchesAreSound(solver: Solver, tracks: seq<Box>, dets: seq<Box>, t: real, i: nat, j: nat)
    requires i < |tracks| && j < |tracks|
    ensures var w, k := IouMatrix(tracks, dets), Associate(solver, tracks, dets, t);
            (k[i] != FREE ==> w[i][k[i]] >= t) && ExchangeIsIdle(w, |dets|, k, i, j)
  {
    SolvedIsHeaviest(solver, tracks, dets);
    var a, k := Solved(solver, tracks, dets), Associate(solver, tracks, dets, t);
    if k[i] != FREE && k[j] != FREE && i != j {
      NoSwapHelps(IouMatrix(tracks, dets), |dets|, a, i, j);
    }
  }

  lemma OneMore(t: real, x: int)
    ensures t * (x + 1) as real == t * x as real + t
  {
  }

  /** The number of pairs among the first n rows that the threshold takes out. */
  function Filtered(a: seq<int>, k: seq<int>, n: nat): nat
    requires n <= |a| == |k|
  {
    if n == 0 then 0 else Filtered(a, k, n - 1) + (if a[n - 1] != k[n - 1] then 1 else 0)
  }

  lemma {:induction false} FilteringLoss(w: Matrix, m: nat, a: seq<int>, t: real, n: nat)
    requires Shaped(w, m) && Partial(a, |w|, m) && n <= |w|
    ensures Total(w, m, a, n) <= Total(w, m, Kept(w, m, a, t), n) + t * Filtered(a, Kept(w, m, a, t), n) as real
  {
    if n > 0 {
      FilteringLoss(w, m, a, t, n - 1);
      OneMore(t, Filtered(a, Kept(w, m, a, t), n - 1));
    }
  }

  /** The total of b is at most the kept total plus t for every pair of a that was filtered out of k. */
  predicate WithinFilteringLoss(w: Matrix, m: nat, a: seq<int>, k: seq<int>, t: real, b: seq<int>)
    requires Shaped(w, m) && Partial(k, |w|, m) && Partial(b, |w|, m) && |a| == |w|
  {
    Weight(w, m, b) <= Weight(w, m, k) + t * Filtered(a, k, |w|) as real
  }

  lemma KeptIsNearHeaviest(w: Matrix, m: nat, a: seq<int>, t: real, b: seq<int>)
    requires Shaped(w, m) && Heaviest(w, m, a) && Partial(b, |w|, m)
    requires forall i, c | 0 <= i < |w| && 0 <= c < m :: w[i][c] >= 0.0
    ensures WithinFilteringLoss(w, m, a, Kept(w, m, a, t), t, b)
  {
    BoundsPartial(w, m, a, b);
    FilteringLoss(w, m, a, t, |w|);
  }

  /** Near-optimality: no partial matching beats the kept total by more than t per filtered pair. */
  lemma KeptIsNearOptimal(solver: Solver, tracks: seq<Box>, dets: seq<Box>, t: real, b: seq<int>)
    requires Partial(b, |tracks|, |dets|)
    ensures var a := Solved(solver, tracks, dets);
            && |a| == |tracks|
            && WithinFilteringLoss(IouMatrix(tracks, dets), |dets|, a, Associate(solver, tracks, dets, t), t, b)
  {
    var w := IouMatrix(tracks, dets);
    SolvedIsHeaviest(solver, tracks, dets);
    forall i, c | 0 <= i < |tracks| && 0 <= c < |dets|
      ensures w[i][c] >= 0.0
    {
      IouRange(tracks[i], dets[c]);
    }
    hide IouMatrix, Iou, WithinFilteringLoss;
    KeptIsNearHeaviest(w, |dets|, Solved(solver, tracks, dets), t, b);
  }
}
