// When a sighting raises a match event, and what the event says.

module GalleryEvents {
  import opened Wrappers
  import opened LinearAlgebra
  import opened Galleries
  import opened GalleryHeld
  import opened GalleryRuns
  import opened GalleryIdentities

  /** Entry j of identity x comes before entry l of identity y: first by identity, then by place in the list. */
  predicate Precedes(x: nat, j: nat, y: nat, l: nat) {
    x < y || (x == y && j < l)
  }

  /** No entry is more similar to the probe than entry j of identity x, and every earlier one is less so. */
  predicate FirstBest(sim: Similarity, probe: Vector, g: Gallery, x: nat, j: nat) {
    && x < |g| && j < |g[x].entries|
    && forall y: nat, l: nat | y < |g| && l < |g[y].entries| ::
         var here, best := sim(probe, g[y].entries[l].embedding), sim(probe, g[x].entries[j].embedding);
         here <= best && (Precedes(y, l, x, j) ==> here < best)
  }

  // ---- Positions in the scan ----

  /** The number of entries in the first n identities. */
  function Before(g: Gallery, n: nat): nat
    requires n <= |g|
  {
    if n == 0 then 0 else Before(g, n - 1) + |g[n - 1].entries|
  }

  /** The scan visits entry j of identity x as number p. */
  predicate VisitedAt(g: Gallery, x: nat, j: nat, p: nat) {
    x < |g| && j < |g[x].entries| && p == Before(g, x) + j
  }

  lemma {:induction false} FlatLength(g: Gallery, n: nat)
    requires n <= |g|
    ensures |Flat(g[..n])| == Before(g, n)
  {
    if n > 0 {
      FlatLength(g, n - 1);
      assert g[..n] == g[..n - 1] + [g[n - 1]];
      FlatMore(g[..n - 1], g[n - 1]);
    }
  }

  lemma {:induction false} FlatAt(g: Gallery, n: nat, x: nat, j: nat)
    requires x < n <= |g| && j < |g[x].entries|
    ensures Before(g, x) + j < |Flat(g[..n])|
    ensures Flat(g[..n])[Before(g, x) + j] == Tagged(g[x].id, g[x].entries[j])
  {
    FlatLength(g, n - 1);
    assert g[..n] == g[..n - 1] + [g[n - 1]];
    FlatMore(g[..n - 1], g[n - 1]);
    if x < n - 1 {
      FlatAt(g, n - 1, x, j);
    }
  }

  lemma {:induction false} FlatFromPlace(g: Gallery, n: nat, p: nat) returns (x: nat, j: nat)
    requires n <= |g| && p < |Flat(g[..n])|
    ensures x < n && VisitedAt(g, x, j, p)
  {
    FlatLength(g, n);
    FlatLength(g, n - 1);
    assert g[..n] == g[..n - 1] + [g[n - 1]];
    FlatMore(g[..n - 1], g[n - 1]);
    if p < |Flat(g[..n - 1])| {
      x, j := FlatFromPlace(g, n - 1, p);
    } else {
      x, j := n - 1, p - Before(g, n - 1);
    }
  }

  lemma {:induction false} BeforeGrows(g: Gallery, x: nat, y: nat)
    requires x < y <= |g|
    ensures Before(g, x) + |g[x].entries| <= Before(g, y)
  {
    if x < y - 1 {
      BeforeGrows(g, x, y - 1);
    }
  }

  /** The scan visits entries in the order of their identities, and in list order within one. */
  lemma VisitsInOrder(g: Gallery, x: nat, j: nat, y: nat, l: nat)
    requires x < |g| && j < |g[x].entries| && y < |g| && l < |g[y].entries|
    ensures Before(g, x) + j < Before(g, y) + l <==> Precedes(x, j, y, l)
  {
    if x < y {
      BeforeGrows(g, x, y);
    } else if y < x {
      BeforeGrows(g, y, x);
    }
  }

  lemma FlatWhole(g: Gallery, x: nat, j: nat)
    requires x < |g| && j < |g[x].entries|
    ensures Before(g, x) + j < |Flat(g)| && Flat(g)[Before(g, x) + j] == Tagged(g[x].id, g[x].entries[j])
  {
    FlatAt(g, |g|, x, j);
    assert g[..|g|] == g;
  }

  /** The scan's winner is the first entry of maximal similarity, in terms of identities and their lists. */
  lemma WinnerIsFirstBest(sim: Similarity, probe: Vector, g: Gallery, b: Best, p: nat) returns (x: nat, j: nat)
    requires FirstMaximumAt(sim, probe, Flat(g), b, p)
    ensures FirstBest(sim, probe, g, x, j) && b.id == g[x].id && b.entry == g[x].entries[j]
    ensures b.similarity == sim(probe, g[x].entries[j].embedding)
  {
    assert g[..|g|] == g;
    x, j := FlatFromPlace(g, |g|, p);
    FlatWhole(g, x, j);
    forall y: nat, l: nat | y < |g| && l < |g[y].entries|
      ensures var here, best := sim(probe, g[y].entries[l].embedding), sim(probe, g[x].entries[j].embedding);
              here <= best && (Precedes(y, l, x, j) ==> here < best)
    {
      FlatWhole(g, y, l);
      VisitsInOrder(g, y, l, x, j);
    }
  }

  lemma FirstBestIsUnique(sim: Similarity, probe: Vector, g: Gallery, x: nat, j: nat, y: nat, l: nat)
    requires FirstBest(sim, probe, g, x, j) && FirstBest(sim, probe, g, y, l)
    ensures x == y && j == l
  {
    assert Precedes(x, j, y, l) || Precedes(y, l, x, j) || (x == y && j == l);
  }

  // ---- What a sighting resolves to ----

  /** The event of a sighting that an earlier entry of an identity decided. */
  predicate EventTells(ev: ReidMatch, s: Sighting, id: string, e: Entry, similarity: real) {
    && ev.zone == s.zone && ev.sourceTrackId == s.trackId && ev.sourceCameraId == s.cameraId
    && ev.matchedTrackId == e.trackId && ev.matchedCameraId == e.cameraId
    && ev.globalIdentityId == id && ev.similarity == similarity
  }

  /** Entry j of identity x is the first of maximal similarity, and reaches 0.72. */
  predicate Decides(sim: Similarity, s: Sighting, g: Gallery, x: nat, j: nat) {
    FirstBest(sim, s.embedding, g, x, j) && sim(s.embedding, g[x].entries[j].embedding) >= 0.72
  }

  /** Nothing decides: a fresh identity and no event. */
  lemma NothingDecides(sim: Similarity, g: Gallery, s: Sighting, freshId: string)
    requires forall x: nat, j: nat :: !Decides(sim, s, g, x, j)
    ensures Resolve(sim, g, s, freshId).id == freshId && Resolve(sim, g, s, freshId).event == None
  {
    hide FirstMaximumAt, Flat, FirstBest;
    ScanIsFirstMaximum(sim, s.embedding, Flat(g));
    var b := Scan(sim, s.embedding, Flat(g));
    if b.Some? {
      var p: nat :| FirstMaximumAt(sim, s.embedding, Flat(g), b.value, p);
      var x, j := WinnerIsFirstBest(sim, s.embedding, g, b.value, p);
      assert Decides(sim, s, g, x, j) <==> b.value.similarity >= 0.72;
    }
  }

  lemma ScanFindsAny(sim: Similarity, s: Sighting, g: Gallery, x: nat, j: nat)
    requires Decides(sim, s, g, x, j)
    ensures Scan(sim, s.embedding, Flat(g)).Some?
  {
    ScanIsFirstMaximum(sim, s.embedding, Flat(g));
    FlatWhole(g, x, j);
    hide Scan, Flat;
  }

  /** The deciding entry gives its identity, and an event exactly if it is another camera's. */
  lemma DecidingEntry(sim: Similarity, g: Gallery, s: Sighting, freshId: string, x: nat, j: nat)
    requires Decides(sim, s, g, x, j)
    ensures var e, r := g[x].entries[j], Resolve(sim, g, s, freshId);
            && r.id == g[x].id
            && (r.event.Some? <==> e.cameraId != s.cameraId)
            && (r.event.Some? ==> EventTells(r.event.value, s, r.id, e, sim(s.embedding, e.embedding)))
  {
    hide FirstMaximumAt, Flat, FirstBest;
    ScanFindsAny(sim, s, g, x, j);
    ScanIsFirstMaximum(sim, s.embedding, Flat(g));
    var b := Scan(sim, s.embedding, Flat(g)).value;
    var p: nat :| FirstMaximumAt(sim, s.embedding, Flat(g), b, p);
    var y, l := WinnerIsFirstBest(sim, s.embedding, g, b, p);
    FirstBestIsUnique(sim, s.embedding, g, x, j, y, l);
  }

  lemma WithinGallery(sim: Similarity, s: Sighting, g: Gallery, x: nat, j: nat)
    requires Decides(sim, s, g, x, j)
    ensures x < |g| && j < |g[x].entries|
  {
  }

  /** The deciding entry is another camera's. */
  predicate OtherCameraDecides(sim: Similarity, s: Sighting, g: Gallery, x: nat, j: nat) {
    Decides(sim, s, g, x, j) && g[x].entries[j].cameraId != s.cameraId
  }

  ghost predicate SomeOtherCameraDecides(sim: Similarity, s: Sighting, g: Gallery) {
    exists x: nat, j: nat :: OtherCameraDecides(sim, s, g, x, j)
  }

  /**
   * observe returns an event exactly if, among the entries the pruned gallery holds, the first of maximal similarity
   * reaches 0.72 and came from another camera.
   */
  lemma EventIffOtherCamera(sim: Similarity, gs: map<string, Gallery>, s: Sighting, freshId: string)
    ensures ObserveResult(sim, gs, s, freshId).event.Some?
       <==> SomeOtherCameraDecides(sim, s, Pruned(GalleryOf(gs, s.zone), s.at))
  {
    hide Resolve, Pruned, FirstBest;
    var live := Pruned(GalleryOf(gs, s.zone), s.at);
    if x: nat, j: nat :| OtherCameraDecides(sim, s, live, x, j) {
      WithinGallery(sim, s, live, x, j);
      DecidingEntry(sim, live, s, freshId, x, j);
    } else if x: nat, j: nat :| Decides(sim, s, live, x, j) {
      DecidingEntry(sim, live, s, freshId, x, j);
      assert !OtherCameraDecides(sim, s, live, x, j);
    } else {
      NothingDecides(sim, live, s, freshId);
    }
  }

  // ---- Events of a run ----

  /** The event of call k names the sighting of call p of the same zone, which was given the same identity. */
  predicate EventNames(sim: Similarity, run: seq<Call>, k: nat, ev: ReidMatch, p: nat)
    requires k < |run| && p < |run|
  {
    var s, was := run[k].sighting, run[p].sighting;
    && ev.zone == s.zone == was.zone && ev.sourceTrackId == s.trackId && ev.sourceCameraId == s.cameraId
    && ev.matchedTrackId == was.trackId && ev.matchedCameraId == was.cameraId && was.cameraId != s.cameraId
    && ev.globalIdentityId == Answer(sim, run, k) == Answer(sim, run, p)
    && ev.similarity == sim(s.embedding, was.embedding) >= 0.72
    && s.at - was.at <= 300.0
  }

  function EventAt(sim: Similarity, run: seq<Call>, k: nat): Option<ReidMatch>
    requires k < |run|
  {
    ObserveResult(sim, GalleriesAfter(sim, run[..k]), run[k].sighting, run[k].freshId).event
  }

  /** On every run, whatever the clock does, an event names an earlier sighting by another camera of the zone. */
  lemma EventsNameSightings(sim: Similarity, run: seq<Call>, k: nat) returns (p: nat)
    requires k < |run| && EventAt(sim, run, k).Some?
    ensures p < k && EventNames(sim, run, k, EventAt(sim, run, k).value, p)
  {
    hide Resolve, Pruned, GalleriesAfter, FirstBest, Live;
    var s, live := run[k].sighting, Found(sim, run, k);
    EventIffOtherCamera(sim, GalleriesAfter(sim, run[..k]), s, run[k].freshId);
    var x: nat, j: nat :| OtherCameraDecides(sim, s, live, x, j);
    WithinGallery(sim, s, live, x, j);
    DecidingEntry(sim, live, s, run[k].freshId, x, j);
    var g := GalleryAt(sim, run, s.zone, k);
    var y := PrunedFrom(g, s.at, x);
    var e := live[x].entries[j];
    assert e in Live(g[y].entries, s.at);
    p := EntrySeen(sim, run, s.zone, k, y, e);
  }
}
