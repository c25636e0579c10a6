// The matcher as the program keeps it: identity records whose entry lists are replaced in place.

module GalleryObjects {
  import opened Wrappers
  import opened LinearAlgebra
  import opened Galleries
  import opened GalleryLogs

  class IdentityRecord {
    const id: string
    var entries: seq<Entry>

    constructor (id: string)
      ensures this.id == id && entries == []
    {
      this.id := id;
      entries := [];
    }
  }

  /** The records hold these identities. */
  ghost predicate Holds(os: seq<IdentityRecord>, g: Gallery)
    reads os
  {
    && |os| == |g|
    && forall i | 0 <= i < |os| :: os[i].id == g[i].id && os[i].entries == g[i].entries
  }

  /** No record twice. */
  ghost predicate Separate(os: seq<IdentityRecord>) {
    forall i, j | 0 <= i < j < |os| :: os[i] != os[j]
  }

  lemma PrunedMore(g: Gallery, x: Identity, now: real)
    ensures Pruned(g + [x], now) ==
            Pruned(g, now) + (if Live(x.entries, now) == [] then [] else [x.(entries := Live(x.entries, now))])
  {
    assert (g + [x])[..|g|] == g;
  }

  lemma {:induction false} PrunedIds(g: Gallery, now: real, i: nat) returns (j: nat)
    requires i < |Pruned(g, now)|
    ensures j < |g| && Pruned(g, now)[i].id == g[j].id
  {
    var before, last := g[..|g| - 1], g[|g| - 1];
    assert g == before + [last];
    PrunedMore(before, last, now);
    hide Live;
    if i < |Pruned(before, now)| {
      j := PrunedIds(before, now, i);
    } else {
      j := |g| - 1;
    }
  }

  lemma {:induction false} PrunedDistinct(g: Gallery, now: real)
    requires DistinctIdentities(g)
    ensures DistinctIdentities(Pruned(g, now))
  {
    if g != [] {
      var before, last := g[..|g| - 1], g[|g| - 1];
      assert g == before + [last];
      PrunedMore(before, last, now);
      PrunedDistinct(before, now);
      forall i: nat | i < |Pruned(before, now)|
        ensures Pruned(before, now)[i].id != last.id
      {
        var j := PrunedIds(before, now, i);
      }
      hide Live;
    }
  }

  lemma FreshStaysFresh(g: Gallery, now: real, id: string)
    requires !HasIdentity(g, id)
    ensures !HasIdentity(Pruned(g, now), id)
  {
    forall i: nat | i < |Pruned(g, now)|
      ensures Pruned(g, now)[i].id != id
    {
      var j := PrunedIds(g, now, i);
    }
  }

  /** Appends an entry and keeps the newest: _add_entry. */
  method AddEntry(identity: IdentityRecord, e: Entry)
    modifies identity
    ensures identity.entries == Newest(old(identity.entries) + [e])
  {
    identity.entries := identity.entries + [e];
    if |identity.entries| > MAX_ENTRIES {
      identity.entries := identity.entries[|identity.entries| - MAX_ENTRIES..];
    }
  }

  /** The loop's three variables hold this best, and the identity is one of the records. */
  ghost predicate Tracks(os: seq<IdentityRecord>, record: IdentityRecord?, entry: Option<Entry>, similarity: real,
                         best: Option<Best>) {
    match best
    case None => record == null && entry == None && similarity == -1.0
    case Some(b) =>
      record != null && record in os && record.id == b.id && entry == Some(b.entry) && similarity == b.similarity
  }

  /** The nested best-so-far loops. */
  method FindBest(sim: Similarity, probe: Vector, os: seq<IdentityRecord>, ghost g: Gallery)
    returns (record: IdentityRecord?, entry: Option<Entry>, similarity: real)
    requires Holds(os, g)
    ensures Tracks(os, record, entry, similarity, Scan(sim, probe, Flat(g)))
  {
    record, entry, similarity := null, None, -1.0;
    for i := 0 to |os|
      invariant Tracks(os, record, entry, similarity, Scan(sim, probe, Flat(g[..i])))
    {
      var es := os[i].entries;
      ghost var before, tags := Flat(g[..i]), Tags(g[i]);
      assert before + tags[..0] == before;
      for j := 0 to |es|
        invariant Tracks(os, record, entry, similarity, Scan(sim, probe, before + tags[..j]))
      {
        assert before + tags[..j + 1] == before + tags[..j] + [tags[j]];
        ScanMore(sim, probe, before + tags[..j], tags[j]);
        var s := sim(probe, es[j].embedding);
        if s > similarity {
          record, entry, similarity := os[i], Some(es[j]), s;
        }
      }
      assert tags[..|es|] == tags;
      FlatMore(g[..i], g[i]);
      assert g[..i + 1] == g[..i] + [g[i]];
    }
    assert g[..|os|] == g;
  }

  /** Filters every record's entries in place and keeps the records that still have some. */
  method PruneRecords(all: seq<IdentityRecord>, ghost was: Gallery, now: real) returns (live: seq<IdentityRecord>)
    requires Separate(all) && Holds(all, was)
    modifies all
    ensures Separate(live) && forall o | o in live :: o in all
    ensures Holds(live, Pruned(was, now))
  {
    hide Pruned, Live;
    live := [];
    for i := 0 to |all|
      invariant Separate(live) && forall o | o in live :: o in all[..i]
      invariant Holds(live, Pruned(was[..i], now))
      invariant forall k | i <= k < |all| :: all[k].entries == was[k].entries
    {
      var identity := all[i];
      assert identity !in all[..i];
      identity.entries := Live(identity.entries, now);
      PrunedMore(was[..i], was[i], now);
      assert was[..i + 1] == was[..i] + [was[i]] && all[..i + 1] == all[..i] + [identity];
      if identity.entries != [] {
        live := live + [identity];
      }
    }
    assert was[..|all|] == was;
  }

  /** All records were created in this zone. */
  ghost predicate AtHome(home: map<IdentityRecord, string>, zone: string, os: seq<IdentityRecord>) {
    forall o | o in os :: o in home && home[o] == zone
  }

  /** Each record once, with different ids, holding the gallery. */
  ghost predicate ZoneHolds(os: seq<IdentityRecord>, g: Gallery)
    reads os
  {
    Separate(os) && Holds(os, g) && DistinctIdentities(g)
  }

  /** Every zone's records hold its gallery. */
  ghost predicate AllHold(gs: map<string, seq<IdentityRecord>>, cs: map<string, Gallery>)
    reads set z, i | z in gs && 0 <= i < |gs[z]| :: gs[z][i]
  {
    gs.Keys == cs.Keys && forall z | z in gs :: ZoneHolds(gs[z], cs[z])
  }

  lemma StoredHolds(gs: map<string, seq<IdentityRecord>>, cs: map<string, Gallery>, zone: string,
                    os: seq<IdentityRecord>, g: Gallery)
    requires AllHold(gs - {zone}, cs - {zone}) && ZoneHolds(os, g)
    ensures AllHold(gs[zone := os], cs[zone := g])
  {
    hide ZoneHolds;
    var before, after := gs - {zone}, gs[zone := os];
    assert forall z | z in after && z != zone :: z in before;
    assert forall z | z in cs && z != zone :: z in cs - {zone};
    assert after.Keys == before.Keys + {zone} && cs[zone := g].Keys == (cs - {zone}).Keys + {zone};
  }

  ghost predicate NoneOf(gs: map<string, seq<IdentityRecord>>, os: seq<IdentityRecord>) {
    forall z, o | z in gs && o in gs[z] :: o !in os
  }

  /** Pruning one zone's records leaves what the other zones hold. */
  method PruneZone(all: seq<IdentityRecord>, ghost was: Gallery, now: real,
                   ghost gs: map<string, seq<IdentityRecord>>, ghost cs: map<string, Gallery>)
    returns (live: seq<IdentityRecord>)
    requires ZoneHolds(all, was) && AllHold(gs, cs) && NoneOf(gs, all)
    modifies all
    ensures forall o | o in live :: o in all
    ensures ZoneHolds(live, Pruned(was, now)) && AllHold(gs, cs)
  {
    hide Pruned;
    PrunedDistinct(was, now);
    live := PruneRecords(all, was, now);
    assert ZoneHolds(live, Pruned(was, now));
    hide Separate, DistinctIdentities;
    forall z | z in gs
      ensures ZoneHolds(gs[z], cs[z])
    {
      assert old(ZoneHolds(gs[z], cs[z]));
      forall i | 0 <= i < |gs[z]|
        ensures gs[z][i].entries == old(gs[z][i].entries)
      {
        assert gs[z][i] !in all;
      }
    }
  }

  /** Adding an entry to one of a zone's records leaves what the other zones hold. */
  method AddInZone(os: seq<IdentityRecord>, record: IdentityRecord, ghost g: Gallery, e: Entry,
                   ghost gs: map<string, seq<IdentityRecord>>, ghost cs: map<string, Gallery>)
    requires ZoneHolds(os, g) && AllHold(gs, cs) && NoneOf(gs, os) && record in os
    modifies record
    ensures ZoneHolds(os, AddTo(g, record.id, e)) && AllHold(gs, cs)
  {
    hide Newest;
    AddEntry(record, e);
    assert ZoneHolds(os, AddTo(g, record.id, e));
    hide Separate, DistinctIdentities;
    forall z | z in gs
      ensures ZoneHolds(gs[z], cs[z])
    {
      assert old(ZoneHolds(gs[z], cs[z]));
      forall i | 0 <= i < |gs[z]|
        ensures gs[z][i].entries == old(gs[z][i].entries)
      {
        assert gs[z][i] !in os;
      }
    }
  }

  /** What one call does, by the outcome of its scan. */
  lemma ObserveByScan(sim: Similarity, was: map<string, Gallery>, s: Sighting, freshId: string)
    ensures var live := Pruned(GalleryOf(was, s.zone), s.at);
            var best := Scan(sim, s.embedding, Flat(live));
            if best.Some? && best.value.similarity >= MATCH_THRESHOLD then
              var b := best.value;
              && Galleries.Observe(sim, was, s, freshId) == was[s.zone := AddTo(live, b.id, EntryOf(s))]
              && ObserveResult(sim, was, s, freshId) == Recognised(b, s)
            else
              && Galleries.Observe(sim, was, s, freshId)
                 == was[s.zone := live + [Identity(freshId, Newest([EntryOf(s)]))]]
              && ObserveResult(sim, was, s, freshId) == Resolution(freshId, None)
  {
    hide Pruned, Scan, Flat, AddTo, Newest;
  }

  class CrossCameraMatcher {
    const sim: Similarity
    var galleries: map<string, seq<IdentityRecord>>
    var lastResolvedId: string
    ghost var Contents: map<string, Gallery>
    /** The zone each record was created in, so that no two zones share one. */
    ghost var Home: map<IdentityRecord, string>

    constructor (sim: Similarity)
      ensures Valid() && Contents == map[] && lastResolvedId == "" && this.sim == sim && Home == map[]
    {
      this.sim := sim;
      galleries := map[];
      lastResolvedId := "";
      Contents := map[];
      Home := map[];
    }

    ghost predicate Valid()
      reads this, Home.Keys
    {
      AllAtHome() && AllHold(galleries, Contents)
    }

    ghost predicate AllAtHome()
      reads this
    {
      forall z | z in galleries :: AtHome(Home, z, galleries[z])
    }

    /** Replaces one zone's list. */
    method Store(zone: string, identities: seq<IdentityRecord>, ghost g: Gallery)
      requires AllAtHome() && AtHome(Home, zone, identities) && ZoneHolds(identities, g)
      requires AllHold(galleries - {zone}, Contents - {zone})
      modifies this`galleries, this`Contents
      ensures Valid()
      ensures galleries == old(galleries)[zone := identities] && Contents == old(Contents)[zone := g]
    {
      hide Separate, Holds, DistinctIdentities, AtHome;
      StoredHolds(galleries, Contents, zone, identities, g);
      galleries := galleries[zone := identities];
      Contents := Contents[zone := g];
    }

    lemma OthersApart(zone: string)
      requires Valid()
      ensures AllHold(galleries - {zone}, Contents - {zone})
      ensures NoneOf(galleries - {zone}, if zone in galleries then galleries[zone] else [])
    {
    }

    /** _prune_and_get. */
    method PruneAndGet(zone: string, now: real) returns (identities: seq<IdentityRecord>)
      requires Valid()
      modifies this`galleries, this`Contents, Home.Keys
      ensures Valid()
      ensures zone in galleries && identities == galleries[zone]
      ensures Contents == old(Contents)[zone := Pruned(GalleryOf(old(Contents), zone), now)]
    {
      hide Pruned, Live;
      var all := if zone in galleries then galleries[zone] else [];
      ghost var was := GalleryOf(Contents, zone);
      OthersApart(zone);
      assert ZoneHolds(all, was) && AtHome(Home, zone, all);
      hide DistinctIdentities, Separate, Holds, ZoneHolds, AllHold, NoneOf;
      identities := PruneZone(all, was, now, galleries - {zone}, Contents - {zone});
      Store(zone, identities, Pruned(was, now));
    }

    /** The matching branch: the entry joins the winning record. */
    method Join(zone: string, record: IdentityRecord, e: Entry)
      requires Valid() && zone in galleries && record in galleries[zone]
      modifies this`Contents, record
      ensures Valid()
      ensures Contents == old(Contents)[zone := AddTo(old(Contents)[zone], record.id, e)]
    {
      ghost var g := Contents[zone];
      OthersApart(zone);
      hide AllHold, NoneOf, ZoneHolds;
      assert ZoneHolds(galleries[zone], g) by {
        ZoneOf(zone);
      }
      AddInZone(galleries[zone], record, g, e, galleries - {zone}, Contents - {zone});
      StoredHolds(galleries, Contents, zone, galleries[zone], AddTo(g, record.id, e));
      assert galleries[zone := galleries[zone]] == galleries;
      Contents := Contents[zone := AddTo(g, record.id, e)];
    }

    lemma ZoneOf(zone: string)
      requires Valid() && zone in galleries
      ensures zone in Contents && ZoneHolds(galleries[zone], Contents[zone]) && AtHome(Home, zone, galleries[zone])
    {
    }

    /** The other branch: a new record for a new identity. */
    method Start(zone: string, freshId: string, e: Entry)
      requires Valid() && zone in galleries && !HasIdentity(GalleryOf(Contents, zone), freshId)
      modifies this`galleries, this`Contents, this`Home
      ensures Valid() && fresh(Home.Keys - old(Home.Keys))
      ensures Contents == old(Contents)[zone := old(Contents)[zone] + [Identity(freshId, Newest([e]))]]
    {
      ghost var g := Contents[zone];
      var created := new IdentityRecord(freshId);
      AddEntry(created, e);
      Home := Home[created := zone];
      Store(zone, galleries[zone] + [created], g + [Identity(freshId, Newest([e]))]);
    }

    /** What a call must change and answer, in terms of the galleries before it. */
    ghost predicate Answers(was: map<string, Gallery>, s: Sighting, freshId: string, event: Option<ReidMatch>)
      reads this
    {
      && Contents == Galleries.Observe(sim, was, s, freshId)
      && Resolution(lastResolvedId, event) == ObserveResult(sim, was, s, freshId)
    }

    /** The zone has been pruned and scanned. */
    ghost predicate Searched(was: map<string, Gallery>, s: Sighting, best: Option<Best>)
      reads this
    {
      var live := Pruned(GalleryOf(was, s.zone), s.at);
      Contents == was[s.zone := live] && best == Scan(sim, s.embedding, Flat(live))
    }

    lemma MatchAnswers(was: map<string, Gallery>, s: Sighting, freshId: string, best: Best)
      requires Searched(was, s, Some(best)) && best.similarity >= MATCH_THRESHOLD
      ensures s.zone in Contents
      ensures Contents[s.zone := AddTo(Contents[s.zone], best.id, EntryOf(s))]
           == Galleries.Observe(sim, was, s, freshId)
      ensures Recognised(best, s) == ObserveResult(sim, was, s, freshId)
    {
      ObserveByScan(sim, was, s, freshId);
      hide Galleries.Observe, ObserveResult, Pruned, Scan, Flat, AddTo, Recognised;
    }

    lemma NewAnswers(was: map<string, Gallery>, s: Sighting, freshId: string, best: Option<Best>)
      requires Searched(was, s, best) && (best.None? || best.value.similarity < MATCH_THRESHOLD)
      ensures s.zone in Contents
      ensures Contents[s.zone := Contents[s.zone] + [Identity(freshId, Newest([EntryOf(s)]))]]
              == Galleries.Observe(sim, was, s, freshId)
      ensures Resolution(freshId, None) == ObserveResult(sim, was, s, freshId)
    {
      ObserveByScan(sim, was, s, freshId);
      hide Galleries.Observe, ObserveResult, Pruned, Scan, Flat, Newest;
    }

    /** A match: the entry joins the winner, and another camera's entry makes an event. */
    method Recognise(record: IdentityRecord, winner: Entry, similarity: real, s: Sighting, ghost freshId: string,
                     ghost was: map<string, Gallery>)
      returns (event: Option<ReidMatch>)
      requires Valid() && s.zone in galleries && record in galleries[s.zone]
      requires Searched(was, s, Some(Best(record.id, winner, similarity))) && similarity >= MATCH_THRESHOLD
      modifies this`Contents, this`lastResolvedId, record
      ensures Valid()
      ensures Answers(was, s, freshId, event)
    {
      MatchAnswers(was, s, freshId, Best(record.id, winner, similarity));
      hide AllHold, AtHome, AddTo, Galleries.Observe, ObserveResult, Searched;
      lastResolvedId := record.id;
      Join(s.zone, record, EntryOf(s));
      if winner.cameraId != s.cameraId {
        event := Some(ReidMatch(s.zone, s.trackId, s.cameraId, winner.trackId, winner.cameraId, record.id, similarity));
      } else {
        event := None;
      }
    }

    /** No match: the sighting starts an identity. */
    method Introduce(s: Sighting, freshId: string, ghost best: Option<Best>, ghost was: map<string, Gallery>)
      requires Valid() && s.zone in galleries && !HasIdentity(GalleryOf(Contents, s.zone), freshId)
      requires Searched(was, s, best) && (best.None? || best.value.similarity < MATCH_THRESHOLD)
      modifies this
      ensures Valid() && fresh(Home.Keys - old(Home.Keys))
      ensures Answers(was, s, freshId, None)
    {
      NewAnswers(was, s, freshId, best);
      hide AllHold, AtHome, Newest, Galleries.Observe, ObserveResult, Searched, HasIdentity, GalleryOf;
      lastResolvedId := freshId;
      Start(s.zone, freshId, EntryOf(s));
    }

    /** Prunes the zone and scans what is left. */
    method Search(s: Sighting, ghost freshId: string)
      returns (record: IdentityRecord?, entry: Option<Entry>, similarity: real, ghost best: Option<Best>)
      requires Valid() && !HasIdentity(GalleryOf(Contents, s.zone), freshId)
      modifies this`galleries, this`Contents, Home.Keys
      ensures Valid() && s.zone in galleries && !HasIdentity(GalleryOf(Contents, s.zone), freshId)
      ensures Searched(old(Contents), s, best) && Tracks(galleries[s.zone], record, entry, similarity, best)
    {
      FreshStaysFresh(GalleryOf(Contents, s.zone), s.at, freshId);
      hide Pruned, Scan, Flat, HasIdentity, DistinctIdentities, Separate, AllAtHome, AllHold, Tracks;
      var identities := PruneAndGet(s.zone, s.at);
      ZoneOf(s.zone);
      best := Scan(sim, s.embedding, Flat(Contents[s.zone]));
      record, entry, similarity := FindBest(sim, s.embedding, identities, Contents[s.zone]);
    }

    /** Resolves a sighting at the given clock reading; the fresh id is used only when nothing matches. */
    method Observe(zone: string, cameraId: string, trackId: string, embedding: Vector, now: real, freshId: string)
      returns (event: Option<ReidMatch>)
      requires Valid() && !HasIdentity(GalleryOf(Contents, zone), freshId)
      modifies this, Home.Keys
      ensures Valid() && fresh(Home.Keys - old(Home.Keys))
      ensures Answers(old(Contents), Sighting(zone, cameraId, trackId, embedding, now), freshId, event)
    {
      hide Searched, HasIdentity, AllAtHome, AllHold, Answers, GalleryOf;
      var s := Sighting(zone, cameraId, trackId, embedding, now);
      ghost var best: Option<Best>;
      var record, entry, similarity;
      record, entry, similarity, best := Search(s, freshId);
      ZoneOf(zone);
      if record != null && similarity >= MATCH_THRESHOLD {
        event := Recognise(record, entry.value, similarity, s, freshId, old(Contents));
      } else {
        Introduce(s, freshId, best, old(Contents));
        event := None;
      }
    }

    /** The id given to the latest sighting. */
    function ResolveIdentityId(): string
      reads this
    {
      lastResolvedId
    }
  }
}
