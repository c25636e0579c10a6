// What the bounded galleries answer on any run, whatever the clock does: recent, of one zone, and gone for good.

module GalleryIdentities {
  import opened Galleries
  import opened GalleryLogs
  import opened GalleryHeld
  import opened GalleryRuns

  /** The identity the galleries give call k. */
  function Answer(sim: Similarity, run: seq<Call>, k: nat): string
    requires k < |run|
  {
    ObserveResult(sim, GalleriesAfter(sim, run[..k]), run[k].sighting, run[k].freshId).id
  }

  /** A zone's gallery before call k, or after the run. */
  function GalleryAt(sim: Similarity, run: seq<Call>, zone: string, k: nat): Gallery
    requires k <= |run|
  {
    GalleryOf(GalleriesAfter(sim, run[..k]), zone)
  }

  /** What call k finds in its zone's gallery. */
  function Found(sim: Similarity, run: seq<Call>, k: nat): Gallery
    requires k < |run|
  {
    Pruned(GalleryAt(sim, run, run[k].sighting.zone, k), run[k].sighting.at)
  }

  // ---- Where the entries come from ----

  /** Call j put this entry under this id into the zone's gallery. */
  predicate SeenAs(sim: Similarity, run: seq<Call>, zone: string, id: string, e: Entry, j: nat) {
    j < |run| && run[j].sighting.zone == zone && EntryOf(run[j].sighting) == e && Answer(sim, run, j) == id
  }

  lemma {:induction false} PrunedFrom(g: Gallery, now: real, y: nat) returns (x: nat)
    requires y < |Pruned(g, now)|
    ensures x < |g| && g[x].id == Pruned(g, now)[y].id
    ensures Pruned(g, now)[y].entries != [] && Pruned(g, now)[y].entries == Live(g[x].entries, now)
  {
    hide Live;
    var before := g[..|g| - 1];
    if y < |Pruned(before, now)| {
      x := PrunedFrom(before, now, y);
    } else {
      x := |g| - 1;
    }
  }

  /** One call: an entry of the next gallery is an old one under the same id, or the call's own under its answer. */
  lemma {:induction false} NextEntry(sim: Similarity, g: Gallery, s: Sighting, freshId: string, x: nat, e: Entry)
    returns (y: nat)
    requires x < |NextGallery(sim, g, s, freshId)| && e in NextGallery(sim, g, s, freshId)[x].entries
    ensures var id := NextGallery(sim, g, s, freshId)[x].id;
            || (y < |g| && g[y].id == id && e in g[y].entries)
            || (e == EntryOf(s) && id == Resolve(sim, Pruned(g, s.at), s, freshId).id)
  {
    hide Scan, Flat, Live;
    var live := Pruned(g, s.at);
    y := 0;
    if x < |live| {
      y := PrunedFrom(g, s.at, x);
    }
  }

  lemma {:induction false} NothingHeld(sim: Similarity, zone: string)
    ensures GalleryOf(GalleriesAfter(sim, []), zone) == []
  {
  }

  /** Every entry a gallery holds was put there by an earlier call of the zone that was answered with its id. */
  lemma {:induction false} EntrySeen(sim: Similarity, run: seq<Call>, zone: string, k: nat, x: nat, e: Entry)
    returns (j: nat)
    requires k <= |run| && x < |GalleryAt(sim, run, zone, k)| && e in GalleryAt(sim, run, zone, k)[x].entries
    ensures j < k && SeenAs(sim, run, zone, GalleryAt(sim, run, zone, k)[x].id, e, j)
  {
    hide GalleriesAfter, NextGallery, Resolve, Pruned;
    if k == 0 {
      assert run[..0] == [];
      NothingHeld(sim, zone);
    }
    GalleriesPrefixStep(sim, run, k - 1, zone);
    if run[k - 1].sighting.zone == zone {
      var y := NextEntry(sim, GalleryAt(sim, run, zone, k - 1), run[k - 1].sighting, run[k - 1].freshId, x, e);
      if e == EntryOf(run[k - 1].sighting) && Answer(sim, run, k - 1) == GalleryAt(sim, run, zone, k)[x].id {
        j := k - 1;
      } else {
        j := EntrySeen(sim, run, zone, k - 1, y, e);
      }
    } else {
      j := EntrySeen(sim, run, zone, k - 1, x, e);
    }
  }

  // ---- Answers are recent ----

  /** Call j of the zone was answered with the id, no longer ago than the maximal age. */
  predicate RecentlyAnswered(sim: Similarity, run: seq<Call>, zone: string, id: string, now: real, j: nat) {
    && j < |run| && run[j].sighting.zone == zone && Answer(sim, run, j) == id
    && now - run[j].sighting.at <= 300.0
  }

  /** An id found at a call is that of an earlier, recent call of the zone. */
  lemma {:induction false} FoundIsRecent(sim: Similarity, run: seq<Call>, k: nat, y: nat) returns (j: nat)
    requires k < |run| && y < |Found(sim, run, k)|
    ensures j < k
    ensures RecentlyAnswered(sim, run, run[k].sighting.zone, Found(sim, run, k)[y].id, run[k].sighting.at, j)
  {
    hide GalleriesAfter, Pruned, Live, Answer;
    var zone, now := run[k].sighting.zone, run[k].sighting.at;
    var g := GalleryAt(sim, run, zone, k);
    var x := PrunedFrom(g, now, y);
    var e := Live(g[x].entries, now)[0];
    assert e in Live(g[x].entries, now);
    j := EntrySeen(sim, run, zone, k, x, e);
  }

  /**
   * On every run, whatever the clock does: a call gets its fresh id, or one that an earlier call of its zone got no
   * longer than the maximal age ago.
   */
  lemma {:induction false} ReturnedIsRecent(sim: Similarity, run: seq<Call>, k: nat)
    requires k < |run|
    ensures var s, id := run[k].sighting, Answer(sim, run, k);
            id == run[k].freshId || exists j: nat :: j < k && RecentlyAnswered(sim, run, s.zone, id, s.at, j)
  {
    hide GalleriesAfter, Pruned, Resolve, RecentlyAnswered;
    var s, live := run[k].sighting, Found(sim, run, k);
    if Matches(sim, live, s) {
      MatchIsCandidate(sim, live, s, run[k].freshId);
      var y :| 0 <= y < |live| && live[y].id == Answer(sim, run, k);
      var j := FoundIsRecent(sim, run, k, y);
    } else {
      UnmatchedIsFresh(sim, live, s, run[k].freshId);
    }
  }

  // ---- Identities stay in their zone ----

  /** Every answer was generated by an earlier or the same call of the same zone. */
  lemma {:induction false} AnswerIsGenerated(sim: Similarity, run: seq<Call>, k: nat) returns (j: nat)
    requires k < |run|
    ensures j <= k && run[j].freshId == Answer(sim, run, k) && run[j].sighting.zone == run[k].sighting.zone
  {
    hide Answer;
    ReturnedIsRecent(sim, run, k);
    if Answer(sim, run, k) == run[k].freshId {
      j := k;
    } else {
      var s := run[k].sighting;
      var p: nat :| p < k && RecentlyAnswered(sim, run, s.zone, Answer(sim, run, k), s.at, p);
      j := AnswerIsGenerated(sim, run, p);
    }
  }

  lemma {:induction false} OneGenerator(run: seq<Call>, i: nat, j: nat)
    requires FreshIds(run) && i < |run| && j < |run| && run[i].freshId == run[j].freshId
    ensures i == j
  {
  }

  /** Two calls with the same identity are calls of the same zone. */
  lemma {:induction false} IdentityKeepsZone(sim: Similarity, run: seq<Call>, k: nat, m: nat)
    requires k < |run| && m < |run| && FreshIds(run) && Answer(sim, run, k) == Answer(sim, run, m)
    ensures run[k].sighting.zone == run[m].sighting.zone
  {
    hide Answer;
    var i := AnswerIsGenerated(sim, run, k);
    var j := AnswerIsGenerated(sim, run, m);
    OneGenerator(run, i, j);
  }

  // ---- Gone is gone ----

  lemma {:induction false} NextHas(sim: Similarity, g: Gallery, s: Sighting, freshId: string, id: string)
    requires !HasIdentity(Pruned(g, s.at), id) && freshId != id
    ensures !HasIdentity(NextGallery(sim, g, s, freshId), id) && Resolve(sim, Pruned(g, s.at), s, freshId).id != id
  {
    hide Resolve, Pruned;
    var live := Pruned(g, s.at);
    if Matches(sim, live, s) {
      MatchIsCandidate(sim, live, s, freshId);
      var added := AddTo(live, Resolve(sim, live, s, freshId).id, EntryOf(s));
      assert forall i | 0 <= i < |added| :: added[i].id == live[i].id;
    } else {
      UnmatchedIsFresh(sim, live, s, freshId);
    }
  }

  lemma {:induction false} PrunedHas(g: Gallery, now: real, id: string)
    requires !HasIdentity(g, id)
    ensures !HasIdentity(Pruned(g, now), id)
  {
    hide Pruned;
    if HasIdentity(Pruned(g, now), id) {
      var y :| 0 <= y < |Pruned(g, now)| && Pruned(g, now)[y].id == id;
      var x := PrunedFrom(g, now, y);
    }
  }

  /** From n to k no call generates the id. */
  predicate NotGenerated(run: seq<Call>, id: string, n: nat, k: nat) {
    k <= |run| && forall j | n <= j < k :: run[j].freshId != id
  }

  /** After a call of the zone that finds the id gone, its gallery stays without it. */
  lemma {:induction false} StaysOut(sim: Similarity, run: seq<Call>, id: string, n: nat, k: nat)
    requires n < k <= |run| && !HasIdentity(Found(sim, run, n), id) && NotGenerated(run, id, n, k)
    ensures !HasIdentity(GalleryAt(sim, run, run[n].sighting.zone, k), id)
  {
    hide GalleriesAfter, NextGallery, Pruned, HasIdentity;
    var zone, s := run[n].sighting.zone, run[k - 1].sighting;
    GalleriesPrefixStep(sim, run, k - 1, zone);
    if k - 1 > n {
      StaysOut(sim, run, id, n, k - 1);
      PrunedHas(GalleryAt(sim, run, zone, k - 1), s.at, id);
    }
    if s.zone == zone {
      NextHas(sim, GalleryAt(sim, run, zone, k - 1), s, run[k - 1].freshId, id);
    }
  }

  /**
   * Pruning is final: once a call of a zone finds no live entry of an identity, no call of the zone gets it again, from
   * that call on, whatever the clock does and whatever is sighted, unless the id is generated anew.
   */
  lemma {:induction false} PrunedForGood(sim: Similarity, run: seq<Call>, id: string, n: nat, m: nat)
    requires n <= m < |run| && run[m].sighting.zone == run[n].sighting.zone
    requires !HasIdentity(Found(sim, run, n), id) && NotGenerated(run, id, n, m + 1)
    ensures Answer(sim, run, m) != id
  {
    hide GalleriesAfter, NextGallery, Pruned, HasIdentity, Resolve;
    var s := run[m].sighting;
    if m > n {
      StaysOut(sim, run, id, n, m);
      PrunedHas(GalleryAt(sim, run, s.zone, m), s.at, id);
    }
    NextHas(sim, GalleryAt(sim, run, s.zone, m), s, run[m].freshId, id);
  }

  /** At call n every earlier call of its zone that was answered with the id is older than the maximal age. */
  predicate ExpiredAt(sim: Similarity, run: seq<Call>, id: string, n: nat)
    requires n < |run|
  {
    forall j: nat | j < n :: !RecentlyAnswered(sim, run, run[n].sighting.zone, id, run[n].sighting.at, j)
  }

  /** Once a call of the zone that generated it finds all its sightings too old, no later call gets it, in any zone. */
  lemma {:induction false} ExpiredNeverReturns(sim: Similarity, run: seq<Call>, first: nat, n: nat, m: nat)
    requires first < n <= m < |run| && FreshIds(run) && run[n].sighting.zone == run[first].sighting.zone
    requires ExpiredAt(sim, run, run[first].freshId, n)
    ensures Answer(sim, run, m) != run[first].freshId
  {
    hide Answer, Found, RecentlyAnswered;
    var id := run[first].freshId;
    if HasIdentity(Found(sim, run, n), id) {
      var y :| 0 <= y < |Found(sim, run, n)| && Found(sim, run, n)[y].id == id;
      var j := FoundIsRecent(sim, run, n, y);
    }
    if run[m].sighting.zone == run[n].sighting.zone {
      PrunedForGood(sim, run, id, n, m);
    } else {
      var j := AnswerIsGenerated(sim, run, m);
      if run[j].freshId == id {
        OneGenerator(run, first, j);
      }
    }
  }
}
