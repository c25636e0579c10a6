// The plain log of a zone, and what resolving one sighting can give.

module GalleryLogs {
  import opened Wrappers
  import opened Galleries

  predicate DistinctIdentities(f: Gallery) {
    forall i, j | 0 <= i < j < |f| :: f[i].id != f[j].id
  }

  // ---- One sighting ----

  lemma {:induction false} FlatFrom(g: Gallery, t: Tagged)
    requires t in Flat(g)
    ensures HasIdentity(g, t.id)
  {
    var before, last := g[..|g| - 1], g[|g| - 1];
    if t in Flat(before) {
      FlatFrom(before, t);
      var i :| 0 <= i < |before| && before[i].id == t.id;
      assert g[i].id == t.id;
    } else {
      assert t in Tags(last);
      assert g[|g| - 1].id == t.id;
    }
  }

  /** A matched identity is one of the candidates. */
  lemma MatchIsCandidate(sim: Similarity, candidates: Gallery, s: Sighting, freshId: string)
    requires Matches(sim, candidates, s)
    ensures HasIdentity(candidates, Resolve(sim, candidates, s, freshId).id)
  {
    var ts := Flat(candidates);
    ScanIsFirstMaximum(sim, s.embedding, ts);
    var b := Scan(sim, s.embedding, ts).value;
    var p: nat :| FirstMaximumAt(sim, s.embedding, ts, b, p);
    FlatFrom(candidates, ts[p]);
  }

  lemma UnmatchedIsFresh(sim: Similarity, candidates: Gallery, s: Sighting, freshId: string)
    requires !Matches(sim, candidates, s)
    ensures Resolve(sim, candidates, s, freshId) == Resolution(freshId, None)
  {
  }

  /** One zone's log after one more sighting. */
  function Extended(f: Gallery, id: string, e: Entry): Gallery {
    if HasIdentity(f, id) then AppendTo(f, id, e) else f + [Identity(id, [e])]
  }

  lemma FullStep(log: seq<Logged>, last: Logged, zone: string)
    ensures Full(log + [last], zone) ==
            if last.sighting.zone == zone then Extended(Full(log, zone), last.id, EntryOf(last.sighting))
            else Full(log, zone)
  {
    assert (log + [last])[..|log|] == log;
  }
}
