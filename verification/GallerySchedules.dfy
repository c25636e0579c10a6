// On which clock readings the bounded galleries answer as the log, whatever is sighted: an exact condition.

module GallerySchedules {
  import opened LinearAlgebra
  import opened Galleries
  import opened Cosines
  import opened GalleryPlaces
  import opened GalleryHeld
  import opened GalleryRuns
  import opened GalleryTraps

  /** Every run with these readings, every similarity and every call of the zone: same identity, same event. */
  ghost predicate AlwaysAgrees(ts: seq<Tick>, zone: string) {
    forall sim: Similarity, run: seq<Call>, n: nat
      | Ticks(run) == ts && FreshIds(run) && n < |run| && run[n].sighting.zone == zone :: AgreesAt(sim, run, n)
  }

  /** All embeddings have d components. */
  predicate OfLength(run: seq<Call>, d: nat) {
    forall k | 0 <= k < |run| :: |run[k].sighting.embedding| == d
  }

  /** Every run with these readings on embeddings of d components, under one similarity. */
  ghost predicate AgreesUnder(sim: Similarity, d: nat, ts: seq<Tick>, zone: string) {
    forall run: seq<Call>, n: nat
      | Ticks(run) == ts && FreshIds(run) && OfLength(run, d) && n < |run| && run[n].sighting.zone == zone ::
        AgreesAt(sim, run, n)
  }

  lemma {:induction false} SafeAlwaysAgrees(ts: seq<Tick>, zone: string)
    requires Safe(ts, zone)
    ensures AlwaysAgrees(ts, zone)
  {
    hide AgreesAt, SafeAt;
    forall sim: Similarity, run: seq<Call>, n: nat
      | Ticks(run) == ts && FreshIds(run) && n < |run| && run[n].sighting.zone == zone
      ensures AgreesAt(sim, run, n)
    {
      assert forall i | 0 <= i < n :: run[..n][i] == run[i];
      SafeCallsAgree(sim, run, n);
    }
  }

  lemma {:induction false} AlwaysMeansUnder(sim: Similarity, d: nat, ts: seq<Tick>, zone: string)
    requires AlwaysAgrees(ts, zone)
    ensures AgreesUnder(sim, d, ts, zone)
  {
    hide AgreesAt;
  }

  // ---- Unit vectors and their cosines ----

  /** A norm that is right on the vectors of length one; any Euclidean norm is. */
  ghost predicate UnitNorm(norm: Vector -> real) {
    forall a: Vector | Dot(a, a, |a|) == 1.0 :: IsNorm(norm, a)
  }

  /** A vector of d components in the plane of the first two. */
  function InPlane(d: nat, x: real, y: real): (v: Vector)
    requires d >= 2
    ensures |v| == d
  {
    seq(d, j => if j == 0 then x else if j == 1 then y else 0.0)
  }

  lemma {:induction false} DotInPlane(d: nat, x: real, y: real, u: real, v: real)
    requires d >= 2
    ensures Dot(InPlane(d, x, y), InPlane(d, u, v), d) == x * u + y * v
  {
    DotTwo(InPlane(d, x, y), InPlane(d, u, v), d, 0, 1);
    hide Dot;
  }

  lemma {:induction false} NormOfUnit(norm: Vector -> real, a: Vector)
    requires UnitNorm(norm) && Dot(a, a, |a|) == 1.0
    ensures norm(a) == 1.0
  {
    assert IsNorm(norm, a);
    SquareOrder(norm(a), 1.0);
    SquareOrder(1.0, norm(a));
  }

  /** On unit vectors of the plane the cosine is the inner product. */
  lemma {:induction false} CosineInPlane(norm: Vector -> real, d: nat, x: real, y: real, u: real, v: real)
    requires UnitNorm(norm) && d >= 2 && x * x + y * y == 1.0 && u * u + v * v == 1.0
    ensures Cosine(norm)(InPlane(d, x, y), InPlane(d, u, v)) == x * u + y * v
  {
    DotInPlane(d, x, y, x, y);
    DotInPlane(d, u, v, u, v);
    DotInPlane(d, x, y, u, v);
    NormOfUnit(norm, InPlane(d, x, y));
    NormOfUnit(norm, InPlane(d, u, v));
    hide Dot, InPlane, UnitNorm;
  }

  // ---- The run of a trap ----

  /** Who plays which part in a trap. */
  datatype Part = First | Follower | Last | Other

  function PartOf(n: nat, i: nat, ps: seq<nat>, k: nat): Part {
    if k == i then First else if k in ps then Follower else if k == n then Last else Other
  }

  /** Followers and the last call lie on either side of the first; all others point the opposite way. */
  function VectorOf(d: nat, part: Part): (v: Vector)
    requires d >= 2
    ensures |v| == d
  {
    match part
    case First => InPlane(d, 1.0, 0.0)
    case Follower => InPlane(d, 0.8, 0.6)
    case Last => InPlane(d, 0.8, -0.6)
    case Other => InPlane(d, -1.0, 0.0)
  }

  /** Which similarities reach the threshold. */
  predicate Alike(a: Part, b: Part) {
    match a
    case First => b == First || b == Follower || b == Last
    case Follower => b == First || b == Follower
    case Last => b == First || b == Last
    case Other => b == Other
  }

  lemma {:induction false} PartsAlike(norm: Vector -> real, d: nat, a: Part, b: Part)
    requires UnitNorm(norm) && d >= 2
    ensures Cosine(norm)(VectorOf(d, a), VectorOf(d, b)) >= MATCH_THRESHOLD <==> Alike(a, b)
  {
    var x := if a.First? then 1.0 else if a.Other? then -1.0 else 0.8;
    var y := if a.Follower? then 0.6 else if a.Last? then -0.6 else 0.0;
    var u := if b.First? then 1.0 else if b.Other? then -1.0 else 0.8;
    var v := if b.Follower? then 0.6 else if b.Last? then -0.6 else 0.0;
    CosineInPlane(norm, d, x, y, u, v);
    hide Cosine, InPlane, UnitNorm;
  }

  function FreshId(k: nat): (id: string)
    ensures |id| == k
  {
    seq(k, _ => 'x')
  }

  /** A run with these readings in which every call plays its part; all generated ids differ. */
  function TrapRun(ts: seq<Tick>, d: nat, n: nat, i: nat, ps: seq<nat>): (run: seq<Call>)
    requires d >= 2
    ensures |run| == |ts|
    ensures forall k | 0 <= k < |ts| ::
              && TickOf(run[k]) == ts[k] && run[k].freshId == FreshId(k)
              && run[k].sighting.embedding == VectorOf(d, PartOf(n, i, ps, k))
  {
    seq(|ts|, k requires 0 <= k < |ts| =>
      Call(Sighting(ts[k].zone, "camera", "track", VectorOf(d, PartOf(n, i, ps, k)), ts[k].at), FreshId(k)))
  }

  lemma {:induction false} TrapRunFits(ts: seq<Tick>, d: nat, n: nat, i: nat, ps: seq<nat>)
    requires d >= 2
    ensures var run := TrapRun(ts, d, n, i, ps); Ticks(run) == ts && FreshIds(run) && OfLength(run, d)
  {
    hide VectorOf, PartOf;
    var run := TrapRun(ts, d, n, i, ps);
    forall a, b | 0 <= a < b < |run|
      ensures run[a].freshId != run[b].freshId
    {
      assert |run[a].freshId| == a && |run[b].freshId| == b;
    }
  }

  lemma {:induction false} LooksByPart(norm: Vector -> real, ts: seq<Tick>, d: nat, n: nat, i: nat, ps: seq<nat>,
                                       k: nat, p: nat)
    requires UnitNorm(norm) && d >= 2 && k < |ts| && p < |ts|
    ensures LooksLike(Cosine(norm), TrapRun(ts, d, n, i, ps), k, p)
       <==> Alike(PartOf(n, i, ps, k), PartOf(n, i, ps, p))
  {
    hide VectorOf, Cosine, UnitNorm, TrapRun, PartOf, Alike;
    PartsAlike(norm, d, PartOf(n, i, ps, k), PartOf(n, i, ps, p));
  }

  /** Calls that look alike by their parts make a trap. */
  lemma {:induction false} PartsTell(sim: Similarity, run: seq<Call>, n: nat, i: nat, ps: seq<nat>)
    requires n < |run| && FreshIds(run) && i < n && n !in ps && i !in ps
    requires forall k: nat, p: nat | k < |run| && p < |run| ::
               LooksLike(sim, run, k, p) <==> Alike(PartOf(n, i, ps, k), PartOf(n, i, ps, p))
    ensures Tells(sim, run, n, i, ps)
  {
    hide LooksLike, FreshIds;
  }

  lemma {:induction false} TrapRunTells(norm: Vector -> real, ts: seq<Tick>, d: nat, n: nat, i: nat, ps: seq<nat>)
    requires UnitNorm(norm) && d >= 2 && n < |ts| && i < n && n !in ps && i !in ps
    ensures Tells(Cosine(norm), TrapRun(ts, d, n, i, ps), n, i, ps)
  {
    hide VectorOf, Cosine, UnitNorm, TrapRun, FreshIds, LooksLike, PartOf, Alike, Tells;
    var run := TrapRun(ts, d, n, i, ps);
    TrapRunFits(ts, d, n, i, ps);
    forall k: nat, p: nat | k < |run| && p < |run|
      ensures LooksLike(Cosine(norm), run, k, p) <==> Alike(PartOf(n, i, ps, k), PartOf(n, i, ps, p))
    {
      LooksByPart(norm, ts, d, n, i, ps, k, p);
    }
    PartsTell(Cosine(norm), run, n, i, ps);
  }

  lemma {:induction false} FirstIsNoFollower(ts: seq<Tick>, n: nat, i: nat, ps: seq<nat>)
    requires n < |ts| && Trap(ts, n, i, ps)
    ensures i !in ps
  {
  }

  /** Every trap makes the matcher, with its cosine, and the log answer some run with the same readings differently. */
  lemma {:induction false} TrapIsSprung(norm: Vector -> real, d: nat, ts: seq<Tick>, n: nat, i: nat, ps: seq<nat>)
    requires UnitNorm(norm) && d >= 2 && n < |ts| && Trap(ts, n, i, ps)
    ensures !AgreesUnder(Cosine(norm), d, ts, ts[n].zone)
  {
    hide Cosine, UnitNorm, Trap, AgreesAt, OfLength, FreshIds, Tells;
    var run := TrapRun(ts, d, n, i, ps);
    TrapIsEarlier(ts, n, i, ps);
    FirstIsNoFollower(ts, n, i, ps);
    TrapRunFits(ts, d, n, i, ps);
    TrapRunTells(norm, ts, d, n, i, ps);
    TrapDisagrees(Cosine(norm), run, n, i, ps);
  }

  // ---- The exact condition ----

  lemma {:induction false} UnsafeDisagrees(norm: Vector -> real, d: nat, ts: seq<Tick>, n: nat)
    requires UnitNorm(norm) && d >= 2 && n < |ts| && !SafeAt(ts, n)
    ensures !AgreesUnder(Cosine(norm), d, ts, ts[n].zone)
  {
    hide AgreesUnder, UnitNorm, Cosine, Trap, Young, Aged, UncoversBy;
    if Revives(ts, n) {
      var i: nat :| i < n && ts[i].zone == ts[n].zone && Young(ts, i, ts[n].at) && Aged(ts, ts[n].zone, i, n);
      RevivalTraps(ts, n, i);
      TrapIsSprung(norm, d, ts, n, i, []);
    } else {
      var i: nat, m: nat, ps: seq<nat> :| UncoversBy(ts, n, i, m, ps);
      UncoveringTraps(ts, n, i, m, ps);
      TrapIsSprung(norm, d, ts, n, i, ps);
    }
  }

  /**
   * With the matcher's own cosine, on embeddings of any two or more components, the galleries answer a zone's calls as
   * the log, whatever is sighted, exactly on safe readings.
   */
  lemma {:induction false} CosineAgreesExactlyWhenSafe(norm: Vector -> real, d: nat, ts: seq<Tick>, zone: string)
    requires UnitNorm(norm) && d >= 2
    ensures AgreesUnder(Cosine(norm), d, ts, zone) <==> Safe(ts, zone)
  {
    hide AgreesUnder, AlwaysAgrees, UnitNorm, Cosine, SafeAt;
    if Safe(ts, zone) {
      SafeAlwaysAgrees(ts, zone);
      AlwaysMeansUnder(Cosine(norm), d, ts, zone);
    } else {
      var n: nat :| n < |ts| && ts[n].zone == zone && !SafeAt(ts, n);
      UnsafeDisagrees(norm, d, ts, n);
    }
  }

  /** A norm on unit vectors. */
  function OneOnUnits(): (norm: Vector -> real)
    ensures UnitNorm(norm)
  {
    (a: Vector) => if Dot(a, a, |a|) == 1.0 then 1.0 else 0.0
  }

  /** The same for every similarity at once. */
  lemma {:induction false} AgreesExactlyWhenSafe(ts: seq<Tick>, zone: string)
    ensures AlwaysAgrees(ts, zone) <==> Safe(ts, zone)
  {
    hide AgreesUnder, AlwaysAgrees, UnitNorm, Cosine, Safe, OneOnUnits;
    if Safe(ts, zone) {
      SafeAlwaysAgrees(ts, zone);
    } else {
      CosineAgreesExactlyWhenSafe(OneOnUnits(), 2, ts, zone);
      if AlwaysAgrees(ts, zone) {
        AlwaysMeansUnder(Cosine(OneOnUnits()), 2, ts, zone);
      }
    }
  }

  /** Readings of one zone at 0, 400 and 10: the third revives the first. */
  predicate ThereAndBack(ts: seq<Tick>, zone: string) {
    ts == [Tick(zone, 0.0), Tick(zone, 400.0), Tick(zone, 10.0)]
  }

  lemma {:induction false} BackIsATrap(ts: seq<Tick>, zone: string)
    requires ThereAndBack(ts, zone)
    ensures Trap(ts, 2, 0, []) && !SafeAt(ts, 2)
  {
    hide Kept, LivePlaces, Uncovers;
    assert Young(ts, 0, ts[2].at) && !Young(ts, 0, ts[1].at);
    assert Aged(ts, zone, 0, 2);
    RevivalTraps(ts, 2, 0);
  }

  lemma {:induction false} SafeUntilBack(ts: seq<Tick>, zone: string, q: nat)
    requires ThereAndBack(ts, zone) && q < 2
    ensures SafeAt(ts, q)
  {
  }

  /** A clock that goes back and up again can revive a sighting: 0, 400, 10. */
  lemma {:induction false} RevivalDisagrees(norm: Vector -> real, d: nat, zone: string)
    requires UnitNorm(norm) && d >= 2
    ensures !AgreesUnder(Cosine(norm), d, [Tick(zone, 0.0), Tick(zone, 400.0), Tick(zone, 10.0)], zone)
  {
    hide AgreesUnder, UnitNorm, Cosine;
    var ts := [Tick(zone, 0.0), Tick(zone, 400.0), Tick(zone, 10.0)];
    BackIsATrap(ts, zone);
    CosineAgreesExactlyWhenSafe(norm, d, ts, zone);
  }

  /** A step back can hide a sighting behind five that grow too old before it: 100, five times 0, 350. */
  lemma {:induction false} UncoveringDisagrees(norm: Vector -> real, d: nat, zone: string)
    requires UnitNorm(norm) && d >= 2
    ensures var o := Tick(zone, 0.0);
            !AgreesUnder(Cosine(norm), d, [Tick(zone, 100.0), o, o, o, o, o, Tick(zone, 350.0)], zone)
  {
    hide AgreesUnder, UnitNorm, Cosine;
    var o := Tick(zone, 0.0);
    var ts := [Tick(zone, 100.0), o, o, o, o, o, Tick(zone, 350.0)];
    var newer: seq<nat> := [1, 2, 3, 4, 5];
    assert Covers(ts, zone, 0, 5, newer);
    assert 1 in newer && !Young(ts, 1, ts[6].at);
    assert UncoversBy(ts, 6, 0, 5, newer);
    assert !SafeAt(ts, 6);
    CosineAgreesExactlyWhenSafe(norm, d, ts, zone);
  }

  /** Yet a clock may go back without harm: 10, 0. */
  lemma {:induction false} StepBackAgrees(zone: string)
    ensures AlwaysAgrees([Tick(zone, 10.0), Tick(zone, 0.0)], zone)
  {
    hide AlwaysAgrees;
    var ts := [Tick(zone, 10.0), Tick(zone, 0.0)];
    forall n: nat | n < |ts|
      ensures SafeAt(ts, n)
    {
    }
    AgreesExactlyWhenSafe(ts, zone);
  }

  const EARLY := Call(Sighting("z", "c", "t", [1.0, 0.0], 0.0), "A")
  const LATE := Call(Sighting("z", "c", "t", [0.0, 1.0], 400.0), "B")
  const BACK := Call(Sighting("z", "c", "t", [1.0, 0.0], 10.0), "C")

  lemma {:induction false} TwoComponents(norm: Vector -> real, x: real, y: real, u: real, v: real)
    requires UnitNorm(norm) && x * x + y * y == 1.0 && u * u + v * v == 1.0
    ensures Cosine(norm)([x, y], [u, v]) == x * u + y * v
  {
    CosineInPlane(norm, 2, x, y, u, v);
    assert InPlane(2, x, y) == [x, y] && InPlane(2, u, v) == [u, v];
    hide Cosine, UnitNorm, InPlane;
  }

  lemma {:induction false} BackTells(norm: Vector -> real)
    requires UnitNorm(norm)
    ensures Tells(Cosine(norm), [EARLY, LATE, BACK], 2, 0, [])
  {
    hide Cosine, UnitNorm;
    TwoComponents(norm, 0.0, 1.0, 1.0, 0.0);
    TwoComponents(norm, 1.0, 0.0, 1.0, 0.0);
    TwoComponents(norm, 1.0, 0.0, 0.0, 1.0);
  }

  /**
   * A concrete run under the cosine: two people at right angles, sighted at 0 and at 400, and the first again at 10.
   * The gallery starts an identity where the log recognises one.
   */
  lemma {:induction false} ClockThatGoesBackDisagrees(norm: Vector -> real)
    requires UnitNorm(norm)
    ensures var run, sim := [EARLY, LATE, BACK], Cosine(norm);
            && FreshIds(run)
            && ObserveResult(sim, GalleriesAfter(sim, [EARLY, LATE]), BACK.sighting, "C").id == "C"
            && ResolveFromLog(sim, LogAfter(sim, [EARLY, LATE]), BACK.sighting, "C").id == "A"
  {
    hide Cosine, UnitNorm, GalleriesAfter, LogAfter, Resolve, Tells, Trap, AgreesAt;
    var run, sim := [EARLY, LATE, BACK], Cosine(norm);
    var ts := Ticks(run);
    assert run[..2] == [EARLY, LATE];
    BackTells(norm);
    BackIsATrap(ts, "z");
    LogRecognises(sim, run, 2, 0, []);
    forall q: nat | q < 2
      ensures AgreesAt(sim, run, q)
    {
      SafeUntilBack(ts, "z", 0);
      SafeUntilBack(ts, "z", 1);
      SafeCallsAgree(sim, run, q);
    }
    GalleryStarts(sim, run, 2, 0, []);
  }
}
