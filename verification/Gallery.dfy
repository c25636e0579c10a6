// The re-identification gallery: bounded lists with eviction by count and age, against a plain log.

module Galleries {
  import opened Wrappers
  import opened LinearAlgebra

  const MATCH_THRESHOLD := 0.72
  const MAX_AGE_SECONDS := 300.0
  const MAX_ENTRIES := 5

  datatype Entry = Entry(embedding: Vector, cameraId: string, trackId: string, observedAt: real)

  datatype Identity = Identity(id: string, entries: seq<Entry>)

  /** Identities of one zone in order of creation. */
  type Gallery = seq<Identity>

  /** The similarity of two embeddings; the scan below works for any. */
  type Similarity = (Vector, Vector) -> real

  datatype ReidMatch = ReidMatch(zone: string, sourceTrackId: string, sourceCameraId: string,
                                 matchedTrackId: string, matchedCameraId: string,
                                 globalIdentityId: string, similarity: real)

  // ---- Eviction ----

  predicate IsLive(e: Entry, now: real) {
    now - e.observedAt <= MAX_AGE_SECONDS
  }

  /** The entries no older than the maximal age, in order. */
  function Live(es: seq<Entry>, now: real): (ls: seq<Entry>)
    ensures |ls| <= |es|
    ensures forall e :: e in ls <==> e in es && IsLive(e, now)
  {
    if es == [] then []
    else
      var last := es[|es| - 1];
      assert es == es[..|es| - 1] + [last];
      Live(es[..|es| - 1], now) + (if IsLive(last, now) then [last] else [])
  }

  /** The last five of a list. */
  function Newest<T>(es: seq<T>): (ns: seq<T>)
    ensures |ns| <= MAX_ENTRIES && |ns| <= |es|
  {
    if |es| > MAX_ENTRIES then es[|es| - MAX_ENTRIES..] else es
  }

  /** Of a longer list the last five stay, in order; a list of at most five stays as it is. */
  lemma NewestIs<T>(es: seq<T>, i: nat)
    requires i < |es|
    ensures |Newest(es)| == (if |es| <= 5 then |es| else 5)
    ensures |es| - i <= 5 ==>
              i >= |es| - |Newest(es)| && Newest(es)[i - (|es| - |Newest(es)|)] == es[i]
  {
  }

  /** _prune_and_get: drop old entries, then identities without entries. */
  function Pruned(g: Gallery, now: real): (p: Gallery)
    ensures |p| <= |g|
  {
    if g == [] then []
    else
      var last := g[|g| - 1];
      var live := Live(last.entries, now);
      Pruned(g[..|g| - 1], now) + (if live == [] then [] else [last.(entries := live)])
  }

  /** _add_entry on every identity with the given id. */
  function AddTo(g: Gallery, id: string, e: Entry): (r: Gallery)
    ensures |r| == |g|
    ensures forall i | 0 <= i < |g| ::
              r[i] == if g[i].id == id then g[i].(entries := Newest(g[i].entries + [e])) else g[i]
  {
    seq(|g|, i requires 0 <= i < |g| =>
      if g[i].id == id then g[i].(entries := Newest(g[i].entries + [e])) else g[i])
  }

  // ---- The scan ----

  /** The entry with the best similarity so far, and the identity it belongs to. */
  datatype Best = Best(id: string, entry: Entry, similarity: real)

  /** An entry together with its identity's id. */
  datatype Tagged = Tagged(id: string, entry: Entry)

  function Tags(identity: Identity): (ts: seq<Tagged>)
    ensures |ts| == |identity.entries|
    ensures forall j | 0 <= j < |ts| :: ts[j] == Tagged(identity.id, identity.entries[j])
  {
    seq(|identity.entries|, j requires 0 <= j < |identity.entries| => Tagged(identity.id, identity.entries[j]))
  }

  /** All entries in the order the nested loops visit them. */
  function Flat(g: Gallery): seq<Tagged> {
    if g == [] then [] else Flat(g[..|g| - 1]) + Tags(g[|g| - 1])
  }

  function BestSimilarity(b: Option<Best>): real {
    match b
    case None => -1.0
    case Some(best) => best.similarity
  }

  /** The best-so-far scan: a later entry wins only with a strictly higher similarity. */
  function Scan(sim: Similarity, probe: Vector, ts: seq<Tagged>): Option<Best> {
    if ts == [] then None
    else
      var before, last := Scan(sim, probe, ts[..|ts| - 1]), ts[|ts| - 1];
      var s := sim(probe, last.entry.embedding);
      if s > BestSimilarity(before) then Some(Best(last.id, last.entry, s)) else before
  }

  lemma ScanMore(sim: Similarity, probe: Vector, ts: seq<Tagged>, t: Tagged)
    ensures var before, s := Scan(sim, probe, ts), sim(probe, t.entry.embedding);
            Scan(sim, probe, ts + [t]) == if s > BestSimilarity(before) then Some(Best(t.id, t.entry, s)) else before
  {
    assert (ts + [t])[..|ts|] == ts;
  }

  lemma FlatMore(g: Gallery, x: Identity)
    ensures Flat(g + [x]) == Flat(g) + Tags(x)
  {
    assert (g + [x])[..|g|] == g;
  }

  /** Position p holds the winner: no similarity is higher, and every earlier one is lower. */
  predicate FirstMaximumAt(sim: Similarity, probe: Vector, ts: seq<Tagged>, b: Best, p: nat) {
    && p < |ts| && ts[p] == Tagged(b.id, b.entry)
    && b.similarity == sim(probe, ts[p].entry.embedding) > -1.0
    && (forall q | 0 <= q < |ts| :: sim(probe, ts[q].entry.embedding) <= b.similarity)
    && (forall q | 0 <= q < p :: sim(probe, ts[q].entry.embedding) < b.similarity)
  }

  /** The scan returns the first maximum, and nothing exactly when no similarity exceeds -1. */
  lemma {:induction false} ScanIsFirstMaximum(sim: Similarity, probe: Vector, ts: seq<Tagged>)
    ensures var b := Scan(sim, probe, ts);
            && (b.None? ==> forall q | 0 <= q < |ts| :: sim(probe, ts[q].entry.embedding) <= -1.0)
            && (b.Some? ==> exists p: nat :: FirstMaximumAt(sim, probe, ts, b.value, p))
  {
    if ts != [] {
      var before, last := ts[..|ts| - 1], ts[|ts| - 1];
      ScanIsFirstMaximum(sim, probe, before);
      var b, s := Scan(sim, probe, before), sim(probe, last.entry.embedding);
      if s > BestSimilarity(b) {
        if b.Some? {
          var p: nat :| FirstMaximumAt(sim, probe, before, b.value, p);
        }
        forall q | 0 <= q < |before|
          ensures sim(probe, ts[q].entry.embedding) < s
        {
          assert ts[q] == before[q];
        }
        assert FirstMaximumAt(sim, probe, ts, Best(last.id, last.entry, s), |ts| - 1);
      } else if b.Some? {
        var p: nat :| FirstMaximumAt(sim, probe, before, b.value, p);
        assert forall q | 0 <= q < |before| :: ts[q] == before[q];
        assert FirstMaximumAt(sim, probe, ts, b.value, p);
      }
    }
  }

  // ---- observe ----

  /** One sighting. */
  datatype Sighting = Sighting(zone: string, cameraId: string, trackId: string, embedding: Vector, at: real)

  function EntryOf(s: Sighting): Entry {
    Entry(s.embedding, s.cameraId, s.trackId, s.at)
  }

  /** What a sighting resolves to: an identity, and a match event when another camera's entry won. */
  datatype Resolution = Resolution(id: string, event: Option<ReidMatch>)

  /** The winner of a scan that reaches the threshold. */
  function Accepted(b: Option<Best>): Option<Best> {
    if b.Some? && b.value.similarity >= MATCH_THRESHOLD then b else None
  }

  /** The answer when this entry won. */
  function Recognised(best: Best, s: Sighting): Resolution {
    Resolution(best.id,
               if best.entry.cameraId != s.cameraId
               then Some(ReidMatch(s.zone, s.trackId, s.cameraId, best.entry.trackId, best.entry.cameraId, best.id,
                                   best.similarity))
               else None)
  }

  function Resolve(sim: Similarity, candidates: Gallery, s: Sighting, freshId: string): Resolution {
    match Accepted(Scan(sim, s.embedding, Flat(candidates)))
    case None => Resolution(freshId, None)
    case Some(best) => Recognised(best, s)
  }

  predicate Matches(sim: Similarity, candidates: Gallery, s: Sighting) {
    Accepted(Scan(sim, s.embedding, Flat(candidates))).Some?
  }

  function GalleryOf(gs: map<string, Gallery>, zone: string): Gallery {
    if zone in gs then gs[zone] else []
  }

  /** The zone's gallery after a sighting. */
  function NextGallery(sim: Similarity, g: Gallery, s: Sighting, freshId: string): Gallery {
    var live := Pruned(g, s.at);
    if Matches(sim, live, s) then AddTo(live, Resolve(sim, live, s, freshId).id, EntryOf(s))
    else live + [Identity(freshId, Newest([EntryOf(s)]))]
  }

  /** The galleries after a sighting; only its own zone's changes. */
  function Observe(sim: Similarity, gs: map<string, Gallery>, s: Sighting, freshId: string): map<string, Gallery> {
    gs[s.zone := NextGallery(sim, GalleryOf(gs, s.zone), s, freshId)]
  }

  function ObserveResult(sim: Similarity, gs: map<string, Gallery>, s: Sighting, freshId: string): Resolution {
    Resolve(sim, Pruned(GalleryOf(gs, s.zone), s.at), s, freshId)
  }

  // ---- The plain log ----

  /** A logged sighting with the identity it was given. */
  datatype Logged = Logged(sighting: Sighting, id: string)

  predicate HasIdentity(g: Gallery, id: string) {
    exists i :: 0 <= i < |g| && g[i].id == id
  }

  /** Append without any bound. */
  function AppendTo(g: Gallery, id: string, e: Entry): (r: Gallery)
    ensures |r| == |g|
    ensures forall i | 0 <= i < |g| :: r[i] == if g[i].id == id then g[i].(entries := g[i].entries + [e]) else g[i]
  {
    seq(|g|, i requires 0 <= i < |g| => if g[i].id == id then g[i].(entries := g[i].entries + [e]) else g[i])
  }

  /** Everything ever logged in a zone, per identity in order of creation. */
  function Full(log: seq<Logged>, zone: string): Gallery {
    if log == [] then []
    else
      var before, last := Full(log[..|log| - 1], zone), log[|log| - 1];
      if last.sighting.zone != zone then before
      else if HasIdentity(before, last.id) then AppendTo(before, last.id, EntryOf(last.sighting))
      else before + [Identity(last.id, [EntryOf(last.sighting)])]
  }

  /** Per identity the last five entries no older than the maximal age; identities without any are left out. */
  function Trim(f: Gallery, now: real): (t: Gallery)
    ensures |t| <= |f|
  {
    if f == [] then []
    else
      var last := f[|f| - 1];
      var recent := Newest(Live(last.entries, now));
      Trim(f[..|f| - 1], now) + (if recent == [] then [] else [last.(entries := recent)])
  }

  /** The reference: scan the log. */
  function ResolveFromLog(sim: Similarity, log: seq<Logged>, s: Sighting, freshId: string): Resolution {
    Resolve(sim, Trim(Full(log, s.zone), s.at), s, freshId)
  }
}
