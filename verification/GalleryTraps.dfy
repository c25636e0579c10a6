// A sighting the log keeps and the gallery lost: runs that make the two answer differently.

module GalleryTraps {
  import opened Collections
  import opened Wrappers
  import opened Galleries
  import opened GalleryPlaces
  import opened GalleryHeld
  import opened GalleryRuns

  // ---- Candidates by position ----

  /** The candidates of one place. */
  function TagsAt(run: seq<Call>, p: Place): (ts: seq<Tagged>)
    requires Within(p.at, |run|)
    ensures |ts| == |p.at| && forall y | 0 <= y < |ts| :: ts[y] == Tagged(p.id, EntryOf(run[p.at[y]].sighting))
  {
    seq(|p.at|, y requires 0 <= y < |p.at| => Tagged(p.id, EntryOf(run[p.at[y]].sighting)))
  }

  lemma {:induction false} FlatShownMore(run: seq<Call>, ps: seq<Place>, p: Place)
    requires AllWithin(ps, |run|) && Within(p.at, |run|)
    ensures AllWithin(ps + [p], |run|)
    ensures Flat(Shown(run, ps + [p])) == Flat(Shown(run, ps)) + TagsAt(run, p)
  {
    hide Flat, Shown, AllWithin;
    ShownMore(run, ps, p);
    if p.at == [] {
      assert Shown(run, ps) + [] == Shown(run, ps);
    } else {
      FlatMore(Shown(run, ps), Identity(p.id, EntriesAt(run, p.at)));
    }
  }

  /** A position of a shown place gives a candidate. */
  lemma {:induction false} ShownHas(run: seq<Call>, ps: seq<Place>, x: nat, p: nat)
    requires AllWithin(ps, |run|) && x < |ps| && p in ps[x].at
    ensures p < |run| && Tagged(ps[x].id, EntryOf(run[p].sighting)) in Flat(Shown(run, ps))
  {
    hide Flat, Shown;
    var before, last := ps[..|ps| - 1], ps[|ps| - 1];
    assert ps == before + [last];
    FlatShownMore(run, before, last);
    if x < |before| {
      ShownHas(run, before, x, p);
    } else {
      var y :| 0 <= y < |last.at| && last.at[y] == p;
      assert TagsAt(run, last)[y] in TagsAt(run, last);
    }
  }

  /** The position a candidate comes from. */
  predicate ComesFrom(run: seq<Call>, ps: seq<Place>, t: Tagged, x: nat, p: nat) {
    x < |ps| && p < |run| && p in ps[x].at && t == Tagged(ps[x].id, EntryOf(run[p].sighting))
  }

  lemma {:induction false} NothingShown(run: seq<Call>)
    ensures Flat(Shown(run, [])) == []
  {
  }

  lemma {:induction false} ShownFrom(run: seq<Call>, ps: seq<Place>, t: Tagged) returns (x: nat, p: nat)
    requires AllWithin(ps, |run|) && t in Flat(Shown(run, ps))
    ensures ComesFrom(run, ps, t, x, p)
  {
    hide Flat, Shown;
    NothingShown(run);
    var before, last := ps[..|ps| - 1], ps[|ps| - 1];
    assert ps == before + [last];
    FlatShownMore(run, before, last);
    if t in Flat(Shown(run, before)) {
      x, p := ShownFrom(run, before, t);
    } else {
      var y :| 0 <= y < |TagsAt(run, last)| && TagsAt(run, last)[y] == t;
      x, p := |ps| - 1, last.at[y];
    }
  }

  /** Why a call is resolved as it is: nothing reaches the threshold, or a candidate that does gives its id. */
  lemma {:induction false} Winner(sim: Similarity, g: Gallery, s: Sighting, freshId: string)
    returns (w: Option<Tagged>)
    ensures w.None? ==>
              && Resolve(sim, g, s, freshId).id == freshId
              && forall t | t in Flat(g) :: sim(s.embedding, t.entry.embedding) < MATCH_THRESHOLD
    ensures w.Some? ==>
              && Resolve(sim, g, s, freshId).id == w.value.id
              && w.value in Flat(g) && sim(s.embedding, w.value.entry.embedding) >= MATCH_THRESHOLD
  {
    var ts := Flat(g);
    ScanIsFirstMaximum(sim, s.embedding, ts);
    var b := Scan(sim, s.embedding, ts);
    w := None;
    if b.Some? {
      var p: nat :| FirstMaximumAt(sim, s.embedding, ts, b.value, p);
      if b.value.similarity >= MATCH_THRESHOLD {
        w := Some(ts[p]);
      }
    }
  }

  // ---- The trap ----

  /** At call n the log still offers position i of an identity seen at i and ps, and the gallery has lost it. */
  predicate Trap(ts: seq<Tick>, n: nat, i: nat, ps: seq<nat>)
    requires n < |ts|
  {
    && Ascending([i] + ps) && Within([i] + ps, n) && InZone(ts, ts[n].zone, [i] + ps)
    && (forall p | p in ps :: i < p < |ts| && Young(ts, i, ts[p].at))
    && i in Newest(LivePlaces(ts, [i] + ps, ts[n].at))
    && i !in Kept(ts, ts[n].zone, [i] + ps, n)
  }

  /** The places the log offers call k. */
  function Offered(sim: Similarity, run: seq<Call>, k: nat): (ps: seq<Place>)
    requires k < |run|
    ensures var all := PlacesOf(sim, run, run[k].sighting.zone, k);
            && |ps| == |all|
            && forall x | 0 <= x < |ps| && Within(all[x].at, |run|) ::
                 ps[x] == Place(all[x].id, Newest(LivePlaces(Ticks(run), all[x].at, run[k].sighting.at)))
  {
    PlacesFit(sim, run, run[k].sighting.zone, k);
    RecentPlaces(Ticks(run), PlacesOf(sim, run, run[k].sighting.zone, k), run[k].sighting.at)
  }

  /** The log resolves call k among the places it offers. */
  lemma {:induction false} OfferedAnswers(sim: Similarity, run: seq<Call>, k: nat)
    requires k < |run|
    ensures AllWithin(Offered(sim, run, k), |run|)
    ensures ResolveFromLog(sim, LogAfter(sim, run[..k]), run[k].sighting, run[k].freshId)
            == Resolve(sim, Shown(run, Offered(sim, run, k)), run[k].sighting, run[k].freshId)
    ensures IdsOf(sim, run)[k]
            == Resolve(sim, Shown(run, Offered(sim, run, k)), run[k].sighting, run[k].freshId).id
  {
    hide LogAfter, IdsOf, Ticks, Resolve, Trim, Full, Shown, RecentPlaces, Places;
    var s := run[k].sighting;
    LogAt(sim, run, k);
    LogPrefix(sim, run, k);
    FullIsPlaces(sim, run, s.zone, k);
    PlacesFit(sim, run, s.zone, k);
    TrimShown(run, PlacesOf(sim, run, s.zone, k), s.at);
  }

  lemma {:induction false} TrapIsEarlier(ts: seq<Tick>, n: nat, i: nat, ps: seq<nat>)
    requires n < |ts| && Trap(ts, n, i, ps)
    ensures i < n && n !in ps
  {
    var all := [i] + ps;
    assert all[0] < n;
    forall p | p in ps
      ensures p < n
    {
      assert p in all;
    }
  }

  /** Call k looks like call p to the matcher. */
  predicate LooksLike(sim: Similarity, run: seq<Call>, k: nat, p: nat)
    requires k < |run| && p < |run|
  {
    sim(run[k].sighting.embedding, run[p].sighting.embedding) >= MATCH_THRESHOLD
  }

  /**
   * Call n looks like call i alone; the calls ps look like i and like one another; and no other earlier call looks
   * like one of these or the other way round.
   */
  ghost predicate Tells(sim: Similarity, run: seq<Call>, n: nat, i: nat, ps: seq<nat>) {
    && n < |run| && FreshIds(run)
    && (forall k: nat, p: nat | p < k < n && LooksLike(sim, run, k, p) :: k in [i] + ps <==> p in [i] + ps)
    && (forall k: nat, p: nat | p < k < n && k in ps && p in [i] + ps :: LooksLike(sim, run, k, p))
    && (forall p: nat | p < n :: LooksLike(sim, run, n, p) <==> p == i)
  }

  /** Before k exactly the calls i and ps were given the id that call i generated. */
  ghost predicate IdsAreTrapped(sim: Similarity, run: seq<Call>, i: nat, ps: seq<nat>, k: nat)
    requires k <= |run| && i < |run|
  {
    forall p: nat | p < k :: IdsOf(sim, run)[p] == run[i].freshId <==> p in [i] + ps
  }

  /** The places are earlier calls under the ids they were given. */
  predicate CallsUnder(ids: seq<string>, qs: seq<Place>, k: nat) {
    k <= |ids| && forall x, p | 0 <= x < |qs| && p in qs[x].at :: p < k && qs[x].id == ids[p]
  }

  /** The log of the run at call k: where every id comes from. */
  lemma {:induction false} PlacesOfTrap(sim: Similarity, run: seq<Call>, k: nat)
    requires k < |run|
    ensures var ids, qs := IdsOf(sim, run), PlacesOf(sim, run, run[k].sighting.zone, k);
            && AllWithin(qs, k) && CallsUnder(ids, qs, k)
            && (forall p: nat | p < k && run[p].sighting.zone == run[k].sighting.zone :: LoggedAt(qs, ids[p], p))
            && DistinctPlaces(qs)
            && (forall x | 0 <= x < |qs| :: Ascending(qs[x].at))
  {
    hide Places, IdsOf, LoggedAt, DistinctPlaces, Ascending, InZone;
    var zone := run[k].sighting.zone;
    PlacesFit(sim, run, zone, k);
    var qs := PlacesOf(sim, run, zone, k);
    forall x | 0 <= x < |qs|
      ensures Ascending(qs[x].at) && forall p | p in qs[x].at :: p < k && qs[x].id == IdsOf(sim, run)[p]
    {
      assert PlaceOk(Ticks(run), IdsOf(sim, run), zone, k, qs[x]);
    }
  }

  /** The candidates offered to call k are earlier calls under their ids. */
  lemma {:induction false} OfferedOfTrap(sim: Similarity, run: seq<Call>, k: nat)
    requires k < |run|
    ensures var ids, qs := IdsOf(sim, run), Offered(sim, run, k);
            AllWithin(qs, |run|) && CallsUnder(ids, qs, k)
  {
    hide Places, IdsOf, LoggedAt, DistinctPlaces, Ascending, LivePlaces;
    PlacesOfTrap(sim, run, k);
    OfferedAnswers(sim, run, k);
    var all, qs := PlacesOf(sim, run, run[k].sighting.zone, k), Offered(sim, run, k);
    forall x, p | 0 <= x < |qs| && p in qs[x].at
      ensures p < k && p < |run| && qs[x].id == IdsOf(sim, run)[p]
    {
      assert Within(all[x].at, |run|);
      assert p in all[x].at;
    }
  }

  lemma {:induction false} NewestOfSome(ps: seq<nat>) returns (q: nat)
    requires ps != []
    ensures q in Newest(ps) && q in ps
  {
    q := Newest(ps)[|Newest(ps)| - 1];
  }

  /** A call of the trap finds the first identity among what it is offered. */
  lemma {:induction false} FirstIsOffered(sim: Similarity, run: seq<Call>, n: nat, i: nat, ps: seq<nat>, k: nat)
    returns (x: nat, q: nat)
    requires k < n < |run| && Trap(Ticks(run), n, i, ps) && i < |run| && IdsAreTrapped(sim, run, i, ps, k) && k in ps
    ensures var qs := Offered(sim, run, k); x < |qs| && q in qs[x].at && q in [i] + ps
  {
    hide Places, IdsOf, DistinctPlaces, LivePlaces, Kept, Newest, Young;
    var ts, ids := Ticks(run), IdsOf(sim, run);
    PlacesOfTrap(sim, run, k);
    var all := PlacesOf(sim, run, ts[k].zone, k);
    assert k in [i] + ps && i in [i] + ps;
    assert LoggedAt(all, ids[i], i);
    x :| 0 <= x < |all| && all[x].id == ids[i] && i in all[x].at;
    assert Within(all[x].at, |run|);
    assert i in LivePlaces(ts, all[x].at, ts[k].at);
    q := NewestOfSome(LivePlaces(ts, all[x].at, ts[k].at));
    assert q in all[x].at;
  }

  lemma {:induction false} TellsEarlier(sim: Similarity, run: seq<Call>, n: nat, i: nat, ps: seq<nat>, k: nat, p: nat)
    requires Tells(sim, run, n, i, ps) && p < k < n
    ensures k < |run| && (LooksLike(sim, run, k, p) ==> (k in [i] + ps <==> p in [i] + ps))
    ensures k in ps && p in [i] + ps ==> LooksLike(sim, run, k, p)
  {
    hide LooksLike;
  }

  lemma {:induction false} TellsFresh(sim: Similarity, run: seq<Call>, n: nat, i: nat, ps: seq<nat>, k: nat)
    requires Tells(sim, run, n, i, ps) && i < n && k < n
    ensures n < |run| && (run[k].freshId == run[i].freshId <==> k == i)
  {
    hide LooksLike;
  }

  /** An earlier call's id is that of the trap exactly if it is one of the trap's calls. */
  lemma {:induction false} TrappedAt(sim: Similarity, run: seq<Call>, i: nat, ps: seq<nat>, k: nat, p: nat)
    requires k <= |run| && i < |run| && IdsAreTrapped(sim, run, i, ps, k) && p < k
    ensures IdsOf(sim, run)[p] == run[i].freshId <==> p in [i] + ps
  {
    hide IdsOf;
  }

  lemma {:induction false} UnderAt(ids: seq<string>, qs: seq<Place>, k: nat, x: nat, p: nat)
    requires CallsUnder(ids, qs, k) && x < |qs| && p in qs[x].at
    ensures p < k && p < |ids| && qs[x].id == ids[p]
  {
  }

  /** The candidate that decides call k: an earlier call that looks like it, and its id. */
  lemma {:induction false} Decides(sim: Similarity, run: seq<Call>, k: nat, qs: seq<Place>, ids: seq<string>, t: Tagged)
    returns (q: nat)
    requires k < |run| && AllWithin(qs, |run|) && CallsUnder(ids, qs, k) && t in Flat(Shown(run, qs))
    requires sim(run[k].sighting.embedding, t.entry.embedding) >= MATCH_THRESHOLD
    ensures q < k && q < |ids| && t.id == ids[q] && LooksLike(sim, run, k, q)
  {
    hide Flat, Shown, AllWithin, CallsUnder;
    var x;
    x, q := ShownFrom(run, qs, t);
    UnderAt(ids, qs, k, x, q);
  }

  lemma {:induction false} HeadOrTail(i: nat, ps: seq<nat>, k: nat)
    ensures k in [i] + ps <==> k == i || k in ps
  {
  }

  /** Some offered call looks like call c. */
  lemma {:induction false} NotOffered(sim: Similarity, run: seq<Call>, qs: seq<Place>, c: nat, x: nat, q: nat)
    requires c < |run| && AllWithin(qs, |run|) && x < |qs| && q in qs[x].at
    requires forall t | t in Flat(Shown(run, qs)) :: sim(run[c].sighting.embedding, t.entry.embedding) < MATCH_THRESHOLD
    ensures q < |run| && !LooksLike(sim, run, c, q)
  {
    hide Flat, Shown;
    ShownHas(run, qs, x, q);
  }

  /** One call of the run before n. */
  lemma {:induction false} TrapIdOf(sim: Similarity, run: seq<Call>, n: nat, i: nat, ps: seq<nat>, c: nat)
    requires c < n && Tells(sim, run, n, i, ps) && Trap(Ticks(run), n, i, ps) && i < n
    requires IdsAreTrapped(sim, run, i, ps, c)
    ensures IdsOf(sim, run)[c] == run[i].freshId <==> c in [i] + ps
  {
    hide *;
    TellsFresh(sim, run, n, i, ps, c);
    HeadOrTail(i, ps, c);
    var qs := Offered(sim, run, c);
    OfferedAnswers(sim, run, c);
    OfferedOfTrap(sim, run, c);
    var w := Winner(sim, Shown(run, qs), run[c].sighting, run[c].freshId);
    if w.Some? {
      var q := Decides(sim, run, c, qs, IdsOf(sim, run), w.value);
      TellsEarlier(sim, run, n, i, ps, c, q);
      TrappedAt(sim, run, i, ps, c, q);
    } else if c in ps {
      var x, q := FirstIsOffered(sim, run, n, i, ps, c);
      UnderAt(IdsOf(sim, run), qs, c, x, q);
      NotOffered(sim, run, qs, c, x, q);
      TellsEarlier(sim, run, n, i, ps, c, q);
    }
  }

  /** The ids of the run: the calls ps join the identity that call i started, and no other call does. */
  lemma {:induction false} TrapIds(sim: Similarity, run: seq<Call>, n: nat, i: nat, ps: seq<nat>, k: nat)
    requires k <= n && Tells(sim, run, n, i, ps) && Trap(Ticks(run), n, i, ps) && i < n
    ensures IdsAreTrapped(sim, run, i, ps, k)
  {
    hide IdsOf, Trap, Tells;
    if k > 0 {
      TrapIds(sim, run, n, i, ps, k - 1);
      TrapIdOf(sim, run, n, i, ps, k - 1);
    }
  }

  /** The identity of the trap holds exactly the positions i and ps. */
  lemma {:induction false} FirstHolds(sim: Similarity, run: seq<Call>, n: nat, i: nat, ps: seq<nat>, x: nat)
    requires n < |run| && Trap(Ticks(run), n, i, ps) && i < n && IdsAreTrapped(sim, run, i, ps, n)
    requires var all := PlacesOf(sim, run, run[n].sighting.zone, n); x < |all| && i in all[x].at
    ensures PlacesOf(sim, run, run[n].sighting.zone, n)[x].at == [i] + ps
  {
    hide Places, IdsOf, LivePlaces, Kept, Newest, Young;
    var all, ids := PlacesOf(sim, run, run[n].sighting.zone, n), IdsOf(sim, run);
    PlacesOfTrap(sim, run, n);
    assert i in [i] + ps;
    forall p
      ensures p in all[x].at <==> p in [i] + ps
    {
      if p in [i] + ps {
        assert LoggedAt(all, ids[p], p);
        var y :| 0 <= y < |all| && all[y].id == ids[p] && p in all[y].at;
        assert y == x;
      }
    }
    AscendingSame(all[x].at, [i] + ps);
  }

  /** At call n the log recognises call i. */
  lemma {:induction false} LogRecognises(sim: Similarity, run: seq<Call>, n: nat, i: nat, ps: seq<nat>)
    requires Tells(sim, run, n, i, ps) && Trap(Ticks(run), n, i, ps) && i < n
    ensures ResolveFromLog(sim, LogAfter(sim, run[..n]), run[n].sighting, run[n].freshId).id == run[i].freshId
  {
    hide Places, IdsOf, LivePlaces, Kept, Newest, Young, Resolve, Shown, Flat, LogAfter, Trim, Full;
    TrapIds(sim, run, n, i, ps, n);
    PlacesOfTrap(sim, run, n);
    OfferedOfTrap(sim, run, n);
    OfferedAnswers(sim, run, n);
    var all, ids, qs := PlacesOf(sim, run, run[n].sighting.zone, n), IdsOf(sim, run), Offered(sim, run, n);
    assert ([i] + ps)[0] == i;
    assert LoggedAt(all, ids[i], i);
    var x :| 0 <= x < |all| && all[x].id == ids[i] && i in all[x].at;
    FirstHolds(sim, run, n, i, ps, x);
    assert Within(all[x].at, |run|);
    ShownHas(run, qs, x, i);
    assert LooksLike(sim, run, n, i);
    var w := Winner(sim, Shown(run, qs), run[n].sighting, run[n].freshId);
    if w.Some? {
      var y, q := ShownFrom(run, qs, w.value);
      assert LooksLike(sim, run, n, q);
    }
  }

  /** At call n the gallery, if all calls agreed so far, starts an identity. */
  lemma {:induction false} GalleryStarts(sim: Similarity, run: seq<Call>, n: nat, i: nat, ps: seq<nat>)
    requires Tells(sim, run, n, i, ps) && Trap(Ticks(run), n, i, ps) && i < n
    requires forall q: nat | q < n && run[q].sighting.zone == run[n].sighting.zone :: AgreesAt(sim, run, q)
    ensures ObserveResult(sim, GalleriesAfter(sim, run[..n]), run[n].sighting, run[n].freshId).id == run[n].freshId
  {
    hide Places, IdsOf, LivePlaces, Kept, Newest, Young, Resolve, Shown, Flat, GalleriesAfter, LogAfter, AgreesAt,
      Pruned;
    var ts, zone := Ticks(run), run[n].sighting.zone;
    TrapIds(sim, run, n, i, ps, n);
    PlacesFit(sim, run, zone, n);
    assert forall a | 0 <= a < n :: run[..n][a] == run[a];
    GalleryIsPredicted(sim, run, zone, n);
    var all := PlacesOf(sim, run, zone, n);
    var held := HeldPlaces(ts, zone, all, n);
    AllWithinMore(held, n, |run|);
    PrunedShown(run, held, ts[n].at);
    var young := YoungPlaces(ts, held, ts[n].at);
    var w := Winner(sim, Shown(run, young), run[n].sighting, run[n].freshId);
    if w.Some? {
      var x, q := ShownFrom(run, young, w.value);
      assert q in Kept(ts, zone, all[x].at, n);
      assert LooksLike(sim, run, n, q);
      FirstHolds(sim, run, n, i, ps, x);
    }
  }

  /** A trap tells the two apart, at its call or before. */
  lemma {:induction false} TrapDisagrees(sim: Similarity, run: seq<Call>, n: nat, i: nat, ps: seq<nat>)
    requires Tells(sim, run, n, i, ps) && Trap(Ticks(run), n, i, ps)
    ensures exists q: nat | q <= n && run[q].sighting.zone == run[n].sighting.zone :: !AgreesAt(sim, run, q)
  {
    hide Resolve, GalleriesAfter, LogAfter, Trap, Pruned, Trim, Full;
    TrapIsEarlier(Ticks(run), n, i, ps);
    if forall q: nat | q <= n && run[q].sighting.zone == run[n].sighting.zone :: AgreesAt(sim, run, q) {
      LogRecognises(sim, run, n, i, ps);
      GalleryStarts(sim, run, n, i, ps);
      assert AgreesAt(sim, run, n);
    }
  }

  // ---- Unsafe readings set a trap ----

  lemma {:induction false} LivePlacesOf(ts: seq<Tick>, i: nat, now: real)
    requires i < |ts| && Young(ts, i, now)
    ensures LivePlaces(ts, [i], now) == [i]
  {
    assert [i][..0] == [];
  }

  /** A revived sighting alone is a trap. */
  lemma {:induction false} RevivalTraps(ts: seq<Tick>, n: nat, i: nat)
    requires i < n < |ts| && ts[i].zone == ts[n].zone && Young(ts, i, ts[n].at) && Aged(ts, ts[n].zone, i, n)
    ensures Trap(ts, n, i, [])
  {
    hide Kept, Aged, LivePlaces, Young, Covered;
    assert [i] + [] == [i];
    AllExplained(ts, ts[n].zone, [i], n);
    LivePlacesOf(ts, i, ts[n].at);
  }

  lemma {:induction false} RisesWith(i: nat, ps: seq<nat>)
    requires Ascending(ps) && forall p | p in ps :: i < p
    ensures Ascending([i] + ps)
  {
    forall a, b | 0 <= a < b < |ps| + 1
      ensures ([i] + ps)[a] < ([i] + ps)[b]
    {
      assert ps[b - 1] in ps;
    }
  }

  /** One of five positions is not covered by five newer ones among them. */
  lemma {:induction false} NotCoveredAgain(ts: seq<Tick>, zone: string, i: nat, ps: seq<nat>, p: nat, k: nat)
    requires k <= |ts| && Ascending(ps) && Ascending([i] + ps) && |ps| == MAX_ENTRIES && p in ps
    ensures !Covered(ts, zone, [i] + ps, p, k)
  {
    hide Kept, Aged;
    if Covered(ts, zone, [i] + ps, p, k) {
      var m: nat, newer: seq<nat> :|
        m < k && Covers(ts, zone, p, m, newer) && forall q | q in newer :: q in [i] + ps;
      var y :| 0 <= y < |ps| && ps[y] == p;
      assert ([i] + ps)[0] == i && ([i] + ps)[y + 1] == p;
      forall q | q in newer
        ensures q in ps[1..]
      {
        var z :| 0 <= z < |[i] + ps| && ([i] + ps)[z] == q;
        assert z > y + 1;
        assert ps[1..][z - 2] == q;
      }
      AscendingCount(newer, ps[1..]);
    }
  }

  /** Positions that were never too old, five of them newer than i, drive i out. */
  lemma {:induction false} CoveringDrivesOut(ts: seq<Tick>, zone: string, i: nat, m: nat, ps: seq<nat>)
    requires m < |ts| && Covers(ts, zone, i, m, ps) && InZone(ts, zone, [i] + ps)
    ensures i !in Kept(ts, zone, [i] + ps, m + 1)
  {
    hide Kept, Aged;
    var at := [i] + ps;
    RisesWith(i, ps);
    AllExplained(ts, zone, at, m + 1);
    var kept := Kept(ts, zone, at, m + 1);
    KeptRise(ts, zone, at, m + 1);
    forall p | p in ps
      ensures p in kept
    {
      assert p in at;
      if p !in kept {
        NotCoveredAgain(ts, zone, i, ps, p, m + 1);
      }
    }
    if i in kept {
      AscendingCount(at, kept);
    }
  }

  /** What was driven out stays out. */
  lemma {:induction false} DrivenOutStaysOut(ts: seq<Tick>, zone: string, at: seq<nat>, i: nat, m: nat, k: nat)
    requires i < m <= k <= |ts| && i !in Kept(ts, zone, at, m)
    ensures i !in Kept(ts, zone, at, k)
  {
    hide Kept, LivePlaces, Newest;
    if k > m {
      DrivenOutStaysOut(ts, zone, at, i, m, k - 1);
      if ts[k - 1].zone == zone {
        KeptNext(ts, zone, at, k - 1);
      } else {
        KeptStep(ts, zone, at, k - 1);
      }
    }
  }

  lemma {:induction false} WithoutOne(i: nat, ps: seq<nat>, y: nat)
    requires Ascending([i] + ps) && y < |ps|
    ensures var rest := [i] + ps[..y] + ps[y + 1..];
            Ascending(rest) && |rest| == |ps| && forall p | p in [i] + ps && p != ps[y] :: p in rest
  {
    var all, rest := [i] + ps, [i] + ps[..y] + ps[y + 1..];
    forall a, b | 0 <= a < b < |rest|
      ensures rest[a] < rest[b]
    {
      assert rest[a] == all[if a <= y then a else a + 1] && rest[b] == all[if b <= y then b else b + 1];
    }
    forall p | p in all && p != ps[y]
      ensures p in rest
    {
      var z :| 0 <= z < |all| && all[z] == p;
      assert rest[if z <= y then z else z - 1] == p;
    }
  }

  /** An uncovered sighting and the five that covered it are a trap. */
  lemma {:induction false} UncoveringTraps(ts: seq<Tick>, n: nat, i: nat, m: nat, ps: seq<nat>)
    requires n < |ts| && !Revives(ts, n) && UncoversBy(ts, n, i, m, ps)
    ensures Trap(ts, n, i, ps)
  {
    hide Kept, LivePlaces, Newest, Young;
    var zone, now, at := ts[n].zone, ts[n].at, [i] + ps;
    RisesWith(i, ps);
    forall p | p in ps
      ensures Young(ts, i, ts[p].at)
    {
      assert !Aged(ts, zone, i, n);
    }
    assert InZone(ts, zone, at);
    forall a | 0 <= a < |at|
      ensures at[a] < n
    {
      assert at[a] == i || at[a] in ps;
    }
    LivePlacesRise(ts, at, now);
    var late: nat :| late in ps && late < |ts| && !Young(ts, late, now);
    var y :| 0 <= y < |ps| && ps[y] == late;
    WithoutOne(i, ps, y);
    assert at[0] == i;
    StaysIn(LivePlaces(ts, at, now), i, [i] + ps[..y] + ps[y + 1..]);
    CoveringDrivesOut(ts, zone, i, m, ps);
    assert ps[0] in ps;
    DrivenOutStaysOut(ts, zone, at, i, m + 1, n);
  }
}
