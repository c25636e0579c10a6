// A zone's log and its bounded gallery as lists of call positions, and one call on both.

module GalleryHeld {
  import opened Collections
  import opened Galleries
  import opened GalleryPlaces

  /** One call: the sighting and the fresh identity id that would be generated for it. */
  datatype Call = Call(sighting: Sighting, freshId: string)

  function TickOf(c: Call): Tick {
    Tick(c.sighting.zone, c.sighting.at)
  }

  function Ticks(run: seq<Call>): (ts: seq<Tick>)
    ensures |ts| == |run| && forall k | 0 <= k < |run| :: ts[k] == TickOf(run[k])
  {
    seq(|run|, k requires 0 <= k < |run| => TickOf(run[k]))
  }

  // ---- The log by positions ----

  /** An identity and the calls logged under it. */
  datatype Place = Place(id: string, at: seq<nat>)

  predicate HasPlace(ps: seq<Place>, id: string) {
    exists x :: 0 <= x < |ps| && ps[x].id == id
  }

  function AppendPlace(ps: seq<Place>, id: string, k: nat): (qs: seq<Place>)
    ensures |qs| == |ps|
    ensures forall x | 0 <= x < |ps| :: qs[x] == if ps[x].id == id then Place(id, ps[x].at + [k]) else ps[x]
  {
    seq(|ps|, x requires 0 <= x < |ps| => if ps[x].id == id then Place(id, ps[x].at + [k]) else ps[x])
  }

  /** The identities of a zone in order of creation, when the calls were given these ids. */
  function Places(ts: seq<Tick>, ids: seq<string>, zone: string, k: nat): seq<Place>
    requires k <= |ts| == |ids|
  {
    if k == 0 then []
    else
      var before := Places(ts, ids, zone, k - 1);
      if ts[k - 1].zone != zone then before
      else if HasPlace(before, ids[k - 1]) then AppendPlace(before, ids[k - 1], k - 1)
      else before + [Place(ids[k - 1], [k - 1])]
  }

  predicate PlaceOk(ts: seq<Tick>, ids: seq<string>, zone: string, k: nat, p: Place)
    requires k <= |ts| == |ids|
  {
    && p.at != [] && Ascending(p.at) && Within(p.at, k) && InZone(ts, zone, p.at)
    && forall i | i in p.at :: i < k && ids[i] == p.id
  }

  predicate DistinctPlaces(ps: seq<Place>) {
    forall x, y | 0 <= x < y < |ps| :: ps[x].id != ps[y].id
  }

  /** The call at i is logged under its id. */
  predicate LoggedAt(ps: seq<Place>, id: string, i: nat) {
    exists x :: 0 <= x < |ps| && ps[x].id == id && i in ps[x].at
  }

  ghost predicate PlacesOk(ts: seq<Tick>, ids: seq<string>, zone: string, k: nat, ps: seq<Place>)
    requires k <= |ts| == |ids|
  {
    && DistinctPlaces(ps)
    && (forall x | 0 <= x < |ps| :: PlaceOk(ts, ids, zone, k, ps[x]))
    && (forall i: nat | i < k && ts[i].zone == zone :: LoggedAt(ps, ids[i], i))
  }

  /** Appending a call to a known identity keeps the places in order. */
  lemma AppendedIsOk(ts: seq<Tick>, ids: seq<string>, zone: string, k: nat, ps: seq<Place>)
    requires k < |ts| == |ids| && ts[k].zone == zone && PlacesOk(ts, ids, zone, k, ps) && HasPlace(ps, ids[k])
    ensures PlacesOk(ts, ids, zone, k + 1, AppendPlace(ps, ids[k], k))
  {
    var after := AppendPlace(ps, ids[k], k);
    forall x | 0 <= x < |after|
      ensures PlaceOk(ts, ids, zone, k + 1, after[x])
    {
      assert PlaceOk(ts, ids, zone, k, ps[x]);
    }
    hide PlaceOk;
    forall i: nat | i < k + 1 && ts[i].zone == zone
      ensures LoggedAt(after, ids[i], i)
    {
      if i < k {
        var x :| 0 <= x < |ps| && ps[x].id == ids[i] && i in ps[x].at;
        assert after[x].id == ids[i] && i in after[x].at;
      } else {
        var x :| 0 <= x < |ps| && ps[x].id == ids[i];
        assert after[x].id == ids[i] && after[x].at[|after[x].at| - 1] == i;
      }
    }
  }

  lemma NewPlaceIsOk(ts: seq<Tick>, ids: seq<string>, zone: string, k: nat, ps: seq<Place>)
    requires k < |ts| == |ids| && ts[k].zone == zone && PlacesOk(ts, ids, zone, k, ps) && !HasPlace(ps, ids[k])
    ensures PlacesOk(ts, ids, zone, k + 1, ps + [Place(ids[k], [k])])
  {
    var after := ps + [Place(ids[k], [k])];
    forall x | 0 <= x < |ps|
      ensures PlaceOk(ts, ids, zone, k + 1, after[x])
    {
      assert PlaceOk(ts, ids, zone, k, ps[x]);
    }
    assert after[|ps|].at[0] == k;
    forall i: nat | i < k && ts[i].zone == zone
      ensures LoggedAt(after, ids[i], i)
    {
      var x :| 0 <= x < |ps| && ps[x].id == ids[i] && i in ps[x].at;
      assert after[x].id == ids[i];
    }
    hide PlaceOk;
  }

  lemma {:induction false} PlacesAreOk(ts: seq<Tick>, ids: seq<string>, zone: string, k: nat)
    requires k <= |ts| == |ids|
    ensures PlacesOk(ts, ids, zone, k, Places(ts, ids, zone, k))
  {
    hide LoggedAt, Ascending, InZone, HasPlace;
    if k > 0 {
      PlacesAreOk(ts, ids, zone, k - 1);
      var before := Places(ts, ids, zone, k - 1);
      if ts[k - 1].zone == zone {
        if HasPlace(before, ids[k - 1]) {
          AppendedIsOk(ts, ids, zone, k - 1, before);
        } else {
          NewPlaceIsOk(ts, ids, zone, k - 1, before);
        }
      }
    }
  }

  function EntriesAt(run: seq<Call>, ps: seq<nat>): (es: seq<Entry>)
    requires Within(ps, |run|)
    ensures |es| == |ps| && forall i | 0 <= i < |ps| :: es[i] == EntryOf(run[ps[i]].sighting)
  {
    seq(|ps|, i requires 0 <= i < |ps| => EntryOf(run[ps[i]].sighting))
  }

  predicate AllWithin(ps: seq<Place>, n: nat) {
    forall x | 0 <= x < |ps| :: Within(ps[x].at, n)
  }

  /** The places as a log's identities. */
  function Identities(run: seq<Call>, ps: seq<Place>): (g: Gallery)
    requires AllWithin(ps, |run|)
    ensures |g| == |ps| && forall x | 0 <= x < |ps| :: g[x] == Identity(ps[x].id, EntriesAt(run, ps[x].at))
  {
    seq(|ps|, x requires 0 <= x < |ps| => Identity(ps[x].id, EntriesAt(run, ps[x].at)))
  }

  /** The places as a gallery: those without positions are left out. */
  function Shown(run: seq<Call>, ps: seq<Place>): (g: Gallery)
    requires AllWithin(ps, |run|)
  {
    if ps == [] then []
    else
      var last := ps[|ps| - 1];
      Shown(run, ps[..|ps| - 1]) + (if last.at == [] then [] else [Identity(last.id, EntriesAt(run, last.at))])
  }

  // ---- Eviction by positions ----

  function YoungPlaces(ts: seq<Tick>, ps: seq<Place>, now: real): (qs: seq<Place>)
    requires AllWithin(ps, |ts|)
    ensures |qs| == |ps|
    ensures forall x | 0 <= x < |ps| :: qs[x] == Place(ps[x].id, LivePlaces(ts, ps[x].at, now))
  {
    seq(|ps|, x requires 0 <= x < |ps| => Place(ps[x].id, LivePlaces(ts, ps[x].at, now)))
  }

  function RecentPlaces(ts: seq<Tick>, ps: seq<Place>, now: real): (qs: seq<Place>)
    requires AllWithin(ps, |ts|)
    ensures |qs| == |ps|
    ensures forall x | 0 <= x < |ps| :: qs[x] == Place(ps[x].id, Newest(LivePlaces(ts, ps[x].at, now)))
  {
    seq(|ps|, x requires 0 <= x < |ps| => Place(ps[x].id, Newest(LivePlaces(ts, ps[x].at, now))))
  }

  /** What the gallery holds of each identity after k calls. */
  function HeldPlaces(ts: seq<Tick>, zone: string, ps: seq<Place>, k: nat): (qs: seq<Place>)
    requires k <= |ts|
    ensures |qs| == |ps|
    ensures forall x | 0 <= x < |ps| :: qs[x] == Place(ps[x].id, Kept(ts, zone, ps[x].at, k))
    ensures AllWithin(qs, k)
  {
    seq(|ps|, x requires 0 <= x < |ps| => Place(ps[x].id, Kept(ts, zone, ps[x].at, k)))
  }

  lemma YoungWithin(ts: seq<Tick>, ps: seq<Place>, now: real, n: nat)
    requires AllWithin(ps, n) && n <= |ts|
    ensures AllWithin(ps, |ts|) && AllWithin(YoungPlaces(ts, ps, now), n) && AllWithin(RecentPlaces(ts, ps, now), n)
  {
    forall x | 0 <= x < |ps|
      ensures Within(LivePlaces(ts, ps[x].at, now), n)
    {
      LivePlacesWithin(ts, ps[x].at, now, n);
    }
  }

  lemma LiveMore(es: seq<Entry>, e: Entry, now: real)
    ensures Live(es + [e], now) == Live(es, now) + (if IsLive(e, now) then [e] else [])
  {
    assert (es + [e])[..|es|] == es;
  }

  function YoungOne(ts: seq<Tick>, p: nat, now: real): (ps: seq<nat>)
    requires p < |ts|
  {
    if Young(ts, p, now) then [p] else []
  }

  lemma LivePlacesMore(ts: seq<Tick>, ps: seq<nat>, p: nat, now: real)
    requires Within(ps + [p], |ts|)
    ensures Within(ps, |ts|) && p < |ts|
    ensures LivePlaces(ts, ps + [p], now) == LivePlaces(ts, ps, now) + YoungOne(ts, p, now)
  {
    assert (ps + [p])[..|ps|] == ps && (ps + [p])[|ps|] == p;
    assert forall i | 0 <= i < |ps| :: (ps + [p])[i] == ps[i];
  }

  lemma EntriesMore(run: seq<Call>, a: seq<nat>, b: seq<nat>)
    requires Within(a, |run|) && Within(b, |run|)
    ensures Within(a + b, |run|) && EntriesAt(run, a + b) == EntriesAt(run, a) + EntriesAt(run, b)
  {
  }

  lemma LiveOne(run: seq<Call>, p: nat, now: real)
    requires p < |run|
    ensures var e, one := EntryOf(run[p].sighting), YoungOne(Ticks(run), p, now);
            && EntriesAt(run, [p]) == [e]
            && Within(one, |run|) && EntriesAt(run, one) == if IsLive(e, now) then [e] else []
  {
  }

  lemma {:induction false} LiveEntries(run: seq<Call>, ps: seq<nat>, now: real)
    requires Within(ps, |run|)
    ensures Within(LivePlaces(Ticks(run), ps, now), |run|)
    ensures Live(EntriesAt(run, ps), now) == EntriesAt(run, LivePlaces(Ticks(run), ps, now))
  {
    hide Ticks, EntriesAt, Young, IsLive, EntryOf, YoungOne;
    LivePlacesWithin(Ticks(run), ps, now, |run|);
    if ps != [] {
      var before, last := ps[..|ps| - 1], ps[|ps| - 1];
      assert ps == before + [last];
      LiveEntries(run, before, now);
      EntriesMore(run, before, [last]);
      LiveOne(run, last, now);
      LiveMore(EntriesAt(run, before), EntryOf(run[last].sighting), now);
      LivePlacesMore(Ticks(run), before, last, now);
      EntriesMore(run, LivePlaces(Ticks(run), before, now), YoungOne(Ticks(run), last, now));
    }
  }

  lemma NewestEntries(run: seq<Call>, ps: seq<nat>)
    requires Within(ps, |run|)
    ensures Within(Newest(ps), |run|) && Newest(EntriesAt(run, ps)) == EntriesAt(run, Newest(ps))
  {
  }

  /** One place as a gallery. */
  function ShownOne(run: seq<Call>, p: Place): (g: Gallery)
    requires Within(p.at, |run|)
    ensures |g| <= 1
  {
    if p.at == [] then [] else [Identity(p.id, EntriesAt(run, p.at))]
  }

  lemma ShownMore(run: seq<Call>, ps: seq<Place>, p: Place)
    requires AllWithin(ps, |run|) && Within(p.at, |run|)
    ensures AllWithin(ps + [p], |run|) && Shown(run, ps + [p]) == Shown(run, ps) + ShownOne(run, p)
  {
    assert (ps + [p])[..|ps|] == ps;
  }

  lemma PrunedUnion(g: Gallery, x: Gallery, now: real)
    requires |x| <= 1
    ensures Pruned(g + x, now) == Pruned(g, now) + Pruned(x, now)
  {
    if x == [] {
      assert g + x == g;
    } else {
      assert (g + x)[..|g|] == g && x[..0] == [];
    }
  }

  lemma PrunedOne(run: seq<Call>, p: Place, now: real)
    requires Within(p.at, |run|)
    ensures var young := Place(p.id, LivePlaces(Ticks(run), p.at, now));
            Within(young.at, |run|) && Pruned(ShownOne(run, p), now) == ShownOne(run, young)
  {
    LiveEntries(run, p.at, now);
    hide Live, LivePlaces;
    if p.at != [] {
      assert ShownOne(run, p)[..0] == [];
    }
  }

  lemma YoungMore(ts: seq<Tick>, ps: seq<Place>, p: Place, now: real)
    requires AllWithin(ps + [p], |ts|)
    ensures AllWithin(ps, |ts|) && Within(p.at, |ts|)
    ensures YoungPlaces(ts, ps + [p], now) == YoungPlaces(ts, ps, now) + [Place(p.id, LivePlaces(ts, p.at, now))]
    ensures RecentPlaces(ts, ps + [p], now)
         == RecentPlaces(ts, ps, now) + [Place(p.id, Newest(LivePlaces(ts, p.at, now)))]
  {
    hide LivePlaces, Newest, Within;
    assert forall x | 0 <= x < |ps| :: (ps + [p])[x] == ps[x];
    assert (ps + [p])[|ps|] == p;
  }

  /** Pruning a gallery prunes its positions. */
  lemma {:induction false} PrunedShown(run: seq<Call>, ps: seq<Place>, now: real)
    requires AllWithin(ps, |run|)
    ensures AllWithin(YoungPlaces(Ticks(run), ps, now), |run|)
    ensures Pruned(Shown(run, ps), now) == Shown(run, YoungPlaces(Ticks(run), ps, now))
  {
    hide ShownOne, Live, LivePlaces, Ticks, YoungPlaces, AllWithin, Within;
    YoungWithin(Ticks(run), ps, now, |run|);
    if ps == [] {
      assert Shown(run, ps) == [];
    } else {
      var before, last := ps[..|ps| - 1], ps[|ps| - 1];
      assert ps == before + [last];
      YoungMore(Ticks(run), before, last, now);
      PrunedShown(run, before, now);
      PrunedOne(run, last, now);
      ShownMore(run, before, last);
      PrunedUnion(Shown(run, before), ShownOne(run, last), now);
      ShownMore(run, YoungPlaces(Ticks(run), before, now), Place(last.id, LivePlaces(Ticks(run), last.at, now)));
    }
  }

  lemma TrimMore(f: Gallery, x: Identity, now: real)
    ensures Trim(f + [x], now) == Trim(f, now) + Trim([x], now)
  {
    assert (f + [x])[..|f|] == f && [x][..0] == [];
  }

  lemma TrimOnePlace(run: seq<Call>, p: Place, now: real)
    requires Within(p.at, |run|)
    ensures var recent := Place(p.id, Newest(LivePlaces(Ticks(run), p.at, now)));
            && Within(recent.at, |run|)
            && Trim([Identity(p.id, EntriesAt(run, p.at))], now) == ShownOne(run, recent)
  {
    LiveEntries(run, p.at, now);
    NewestEntries(run, LivePlaces(Ticks(run), p.at, now));
    hide Live, LivePlaces, Newest;
    assert [Identity(p.id, EntriesAt(run, p.at))][..0] == [];
  }

  lemma IdentitiesMore(run: seq<Call>, ps: seq<Place>, p: Place)
    requires AllWithin(ps + [p], |run|)
    ensures AllWithin(ps, |run|) && Within(p.at, |run|)
    ensures Identities(run, ps + [p]) == Identities(run, ps) + [Identity(p.id, EntriesAt(run, p.at))]
  {
    hide Within;
    assert forall x | 0 <= x < |ps| :: (ps + [p])[x] == ps[x];
    assert (ps + [p])[|ps|] == p;
  }

  /** Trimming a log trims its positions. */
  lemma {:induction false} TrimShown(run: seq<Call>, ps: seq<Place>, now: real)
    requires AllWithin(ps, |run|)
    ensures AllWithin(RecentPlaces(Ticks(run), ps, now), |run|)
    ensures Trim(Identities(run, ps), now) == Shown(run, RecentPlaces(Ticks(run), ps, now))
  {
    hide ShownOne, Live, LivePlaces, Ticks, Newest, RecentPlaces, AllWithin, Within;
    YoungWithin(Ticks(run), ps, now, |run|);
    if ps != [] {
      var before, last := ps[..|ps| - 1], ps[|ps| - 1];
      assert ps == before + [last];
      YoungMore(Ticks(run), before, last, now);
      IdentitiesMore(run, before, last);
      TrimShown(run, before, now);
      TrimOnePlace(run, last, now);
      TrimMore(Identities(run, before), Identity(last.id, EntriesAt(run, last.at)), now);
      ShownMore(run, RecentPlaces(Ticks(run), before, now),
                Place(last.id, Newest(LivePlaces(Ticks(run), last.at, now))));
    }
  }

  // ---- Adding by positions ----

  function AddedOne(p: Place, id: string, k: nat): Place {
    if p.id == id then Place(p.id, Newest(p.at + [k])) else p
  }

  function Added(ps: seq<Place>, id: string, k: nat): (qs: seq<Place>)
    ensures |qs| == |ps| && forall x | 0 <= x < |ps| :: qs[x] == AddedOne(ps[x], id, k)
  {
    seq(|ps|, x requires 0 <= x < |ps| => AddedOne(ps[x], id, k))
  }

  lemma AddMore(g: Gallery, x: Gallery, id: string, e: Entry)
    ensures AddTo(g + x, id, e) == AddTo(g, id, e) + AddTo(x, id, e)
  {
  }

  lemma AddOne(run: seq<Call>, p: Place, id: string, k: nat)
    requires Within(p.at, |run|) && k < |run| && (p.id == id ==> p.at != [])
    ensures Within(AddedOne(p, id, k).at, |run|)
    ensures AddTo(ShownOne(run, p), id, EntryOf(run[k].sighting)) == ShownOne(run, AddedOne(p, id, k))
  {
    if p.id == id {
      NewestEntries(run, p.at + [k]);
      assert EntriesAt(run, p.at + [k]) == EntriesAt(run, p.at) + [EntryOf(run[k].sighting)];
    }
  }

  /** Adding an entry to a shown identity adds the position. */
  lemma {:induction false} AddShown(run: seq<Call>, ps: seq<Place>, id: string, k: nat)
    requires AllWithin(ps, |run|) && k < |run| && forall x | 0 <= x < |ps| && ps[x].id == id :: ps[x].at != []
    ensures AllWithin(Added(ps, id, k), |run|)
    ensures AddTo(Shown(run, ps), id, EntryOf(run[k].sighting)) == Shown(run, Added(ps, id, k))
  {
    hide ShownOne, AddedOne;
    if ps != [] {
      var before, last := ps[..|ps| - 1], ps[|ps| - 1];
      assert ps == before + [last];
      AddShown(run, before, id, k);
      AddOne(run, last, id, k);
      ShownMore(run, before, last);
      AddMore(Shown(run, before), ShownOne(run, last), id, EntryOf(run[k].sighting));
      ShownMore(run, Added(before, id, k), AddedOne(last, id, k));
      assert Added(ps, id, k) == Added(before, id, k) + [AddedOne(last, id, k)];
    }
  }

  /** A shown id is that of a place with positions. */
  lemma {:induction false} ShownId(run: seq<Call>, ps: seq<Place>, id: string) returns (x: nat)
    requires AllWithin(ps, |run|) && HasIdentity(Shown(run, ps), id)
    ensures x < |ps| && ps[x].id == id && ps[x].at != []
  {
    var before, last := ps[..|ps| - 1], ps[|ps| - 1];
    assert ps == before + [last];
    ShownMore(run, before, last);
    var i :| 0 <= i < |Shown(run, ps)| && Shown(run, ps)[i].id == id;
    if i < |Shown(run, before)| {
      x := ShownId(run, before, id);
    } else {
      x := |ps| - 1;
    }
  }

  // ---- One call ----

  lemma KeptOfCall(ts: seq<Tick>, zone: string, at: seq<nat>, k: nat)
    requires k < |ts| && ts[k].zone == zone && Within(at, k)
    ensures Kept(ts, zone, at, k + 1) == LivePlaces(ts, Kept(ts, zone, at, k), ts[k].at)
    ensures Kept(ts, zone, at + [k], k + 1) == Newest(LivePlaces(ts, Kept(ts, zone, at, k), ts[k].at) + [k])
  {
    KeptStep(ts, zone, at, k);
    KeptStep(ts, zone, at + [k], k);
    KeptIgnoresLater(ts, zone, at, k, k);
    hide Kept, LivePlaces, Newest;
    assert (at + [k])[|at|] == k;
  }

  lemma KeptOfNew(ts: seq<Tick>, zone: string, k: nat)
    requires k < |ts| && ts[k].zone == zone
    ensures Kept(ts, zone, [k], k + 1) == [k]
  {
    KeptStep(ts, zone, [k], k);
    var kept := Kept(ts, zone, [k], k);
    KeptRise(ts, zone, [k], k);
    AscendingCount(kept, []);
  }

  /** A call under a known identity: the young positions stay, and this one joins them. */
  lemma HeldAfterKnown(ts: seq<Tick>, ids: seq<string>, zone: string, k: nat)
    requires k < |ts| == |ids| && ts[k].zone == zone && HasPlace(Places(ts, ids, zone, k), ids[k])
    ensures var ps := Places(ts, ids, zone, k);
            && AllWithin(HeldPlaces(ts, zone, ps, k), |ts|)
            && HeldPlaces(ts, zone, Places(ts, ids, zone, k + 1), k + 1)
               == Added(YoungPlaces(ts, HeldPlaces(ts, zone, ps, k), ts[k].at), ids[k], k)
  {
    PlacesAreOk(ts, ids, zone, k);
    var ps, after := Places(ts, ids, zone, k), Places(ts, ids, zone, k + 1);
    assert after == AppendPlace(ps, ids[k], k);
    hide Kept, LivePlaces, Newest, Places, Ascending, InZone;
    forall x | 0 <= x < |ps|
      ensures HeldPlaces(ts, zone, after, k + 1)[x]
           == AddedOne(Place(ps[x].id, LivePlaces(ts, Kept(ts, zone, ps[x].at, k), ts[k].at)), ids[k], k)
    {
      assert PlaceOk(ts, ids, zone, k, ps[x]);
      KeptOfCall(ts, zone, ps[x].at, k);
    }
  }

  /** A call under a new identity: the young positions stay, and a place is added. */
  lemma HeldAfterNew(ts: seq<Tick>, ids: seq<string>, zone: string, k: nat)
    requires k < |ts| == |ids| && ts[k].zone == zone && !HasPlace(Places(ts, ids, zone, k), ids[k])
    ensures var ps := Places(ts, ids, zone, k);
            && AllWithin(HeldPlaces(ts, zone, ps, k), |ts|)
            && HeldPlaces(ts, zone, Places(ts, ids, zone, k + 1), k + 1)
               == YoungPlaces(ts, HeldPlaces(ts, zone, ps, k), ts[k].at) + [Place(ids[k], [k])]
  {
    PlacesAreOk(ts, ids, zone, k);
    KeptOfNew(ts, zone, k);
    var ps, after := Places(ts, ids, zone, k), Places(ts, ids, zone, k + 1);
    assert after == ps + [Place(ids[k], [k])];
    hide Kept, LivePlaces, Newest, Places, Ascending, InZone;
    forall x | 0 <= x < |ps|
      ensures HeldPlaces(ts, zone, after, k + 1)[x]
           == Place(ps[x].id, LivePlaces(ts, Kept(ts, zone, ps[x].at, k), ts[k].at))
    {
      assert PlaceOk(ts, ids, zone, k, ps[x]);
      KeptOfCall(ts, zone, ps[x].at, k);
    }
  }

  /** A call of another zone changes nothing here. */
  lemma HeldAfterOther(ts: seq<Tick>, ids: seq<string>, zone: string, k: nat)
    requires k < |ts| == |ids| && ts[k].zone != zone
    ensures HeldPlaces(ts, zone, Places(ts, ids, zone, k + 1), k + 1)
         == HeldPlaces(ts, zone, Places(ts, ids, zone, k), k)
  {
    var ps := Places(ts, ids, zone, k);
    forall x | 0 <= x < |ps|
      ensures Kept(ts, zone, ps[x].at, k + 1) == Kept(ts, zone, ps[x].at, k)
    {
      KeptStep(ts, zone, ps[x].at, k);
    }
  }
}
