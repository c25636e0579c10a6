// On safe clock readings every run of the matcher agrees with the plain log.

module GalleryRuns {
  import opened Collections
  import opened Galleries
  import opened GalleryLogs
  import opened GalleryPlaces
  import opened GalleryHeld

  // ---- Runs ----

  /** The bounded galleries after a run. */
  function GalleriesAfter(sim: Similarity, run: seq<Call>): map<string, Gallery> {
    if run == [] then map[]
    else
      var last := run[|run| - 1];
      Observe(sim, GalleriesAfter(sim, run[..|run| - 1]), last.sighting, last.freshId)
  }

  /** One more line of the log: the sighting under the identity that the log gives it. */
  function LogLine(sim: Similarity, log: seq<Logged>, call: Call): (line: Logged)
    ensures line.sighting == call.sighting
  {
    Logged(call.sighting, ResolveFromLog(sim, log, call.sighting, call.freshId).id)
  }

  /** The log after a run that resolves every sighting from the log alone. */
  function LogAfter(sim: Similarity, run: seq<Call>): (log: seq<Logged>)
    ensures |log| == |run|
    ensures forall k | 0 <= k < |run| :: log[k].sighting == run[k].sighting
  {
    hide LogLine;
    if run == [] then []
    else
      var before := LogAfter(sim, run[..|run| - 1]);
      before + [LogLine(sim, before, run[|run| - 1])]
  }

  /** The clock does not go back. */
  predicate Chronological(run: seq<Call>) {
    forall i, j | 0 <= i < j < |run| :: run[i].sighting.at <= run[j].sighting.at
  }

  /** Generated ids are never generated twice. */
  predicate FreshIds(run: seq<Call>) {
    forall i, j | 0 <= i < j < |run| :: run[i].freshId != run[j].freshId
  }

  lemma GalleriesStep(sim: Similarity, run: seq<Call>, call: Call)
    ensures GalleriesAfter(sim, run + [call]) ==
            Observe(sim, GalleriesAfter(sim, run), call.sighting, call.freshId)
  {
    assert (run + [call])[..|run|] == run;
  }

  lemma LogStep(sim: Similarity, run: seq<Call>, call: Call)
    ensures LogAfter(sim, run + [call]) ==
            LogAfter(sim, run) +
            [Logged(call.sighting, ResolveFromLog(sim, LogAfter(sim, run), call.sighting, call.freshId).id)]
  {
    assert (run + [call])[..|run|] == run;
  }

  /** A sighting in another zone changes neither the gallery nor the log of this one. */
  lemma OtherZoneIsUntouched(sim: Similarity, run: seq<Call>, call: Call, zone: string)
    requires zone != call.sighting.zone
    ensures GalleryOf(GalleriesAfter(sim, run + [call]), zone) == GalleryOf(GalleriesAfter(sim, run), zone)
    ensures Full(LogAfter(sim, run + [call]), zone) == Full(LogAfter(sim, run), zone)
  {
    GalleriesStep(sim, run, call);
    LogStep(sim, run, call);
    FullStep(LogAfter(sim, run),
             Logged(call.sighting, ResolveFromLog(sim, LogAfter(sim, run), call.sighting, call.freshId).id), zone);
  }

  // ---- The log and the gallery by positions ----

  /** The ids the log gives to the calls of a run. */
  function IdsOf(sim: Similarity, run: seq<Call>): (ids: seq<string>)
    ensures |ids| == |run| && forall k | 0 <= k < |run| :: ids[k] == LogAfter(sim, run)[k].id
  {
    var log := LogAfter(sim, run);
    seq(|run|, k requires 0 <= k < |run| => log[k].id)
  }

  /** The identities of a zone by positions, after k calls. */
  function PlacesOf(sim: Similarity, run: seq<Call>, zone: string, k: nat): seq<Place>
    requires k <= |run|
  {
    Places(Ticks(run), IdsOf(sim, run), zone, k)
  }

  lemma PlacesFit(sim: Similarity, run: seq<Call>, zone: string, k: nat)
    requires k <= |run|
    ensures PlacesOk(Ticks(run), IdsOf(sim, run), zone, k, PlacesOf(sim, run, zone, k))
    ensures AllWithin(PlacesOf(sim, run, zone, k), |run|) && AllWithin(PlacesOf(sim, run, zone, k), k)
  {
    PlacesAreOk(Ticks(run), IdsOf(sim, run), zone, k);
    hide Places, Ticks, IdsOf, LogAfter;
  }

  lemma ExtendedPlaces(run: seq<Call>, ps: seq<Place>, id: string, k: nat)
    requires AllWithin(ps, k) && k < |run|
    ensures AllWithin(ps, |run|)
    ensures HasIdentity(Identities(run, ps), id) <==> HasPlace(ps, id)
    ensures var next := if HasPlace(ps, id) then AppendPlace(ps, id, k) else ps + [Place(id, [k])];
            && AllWithin(next, |run|)
            && Extended(Identities(run, ps), id, EntryOf(run[k].sighting)) == Identities(run, next)
  {
    var g, e := Identities(run, ps), EntryOf(run[k].sighting);
    if HasPlace(ps, id) {
      var x :| 0 <= x < |ps| && ps[x].id == id;
      assert g[x].id == id;
      forall y | 0 <= y < |ps|
        ensures var p := AppendPlace(ps, id, k)[y]; AppendTo(g, id, e)[y] == Identity(p.id, EntriesAt(run, p.at))
      {
        assert EntriesAt(run, ps[y].at + [k]) == EntriesAt(run, ps[y].at) + [e];
      }
    } else {
      forall y | 0 <= y < |g|
        ensures g[y].id != id
      {
        assert ps[y].id != id;
      }
      assert EntriesAt(run, [k]) == [e];
    }
  }

  lemma {:induction false} LogPrefix(sim: Similarity, run: seq<Call>, n: nat)
    requires n <= |run|
    ensures LogAfter(sim, run)[..n] == LogAfter(sim, run[..n])
  {
    hide ResolveFromLog;
    if n < |run| {
      LogPrefix(sim, run[..|run| - 1], n);
      assert run[..|run| - 1][..n] == run[..n];
    } else {
      assert run[..n] == run;
    }
  }

  lemma LogPrefixStep(sim: Similarity, run: seq<Call>, k: nat)
    requires k < |run|
    ensures LogAfter(sim, run[..k + 1]) == LogAfter(sim, run[..k]) + [Logged(run[k].sighting, IdsOf(sim, run)[k])]
  {
    hide LogAfter, IdsOf, ResolveFromLog;
    LogPrefix(sim, run, k);
    LogPrefix(sim, run, k + 1);
    assert LogAfter(sim, run)[..k + 1] == LogAfter(sim, run)[..k] + [LogAfter(sim, run)[k]];
  }

  lemma EmptyLog(sim: Similarity, zone: string)
    ensures Full(LogAfter(sim, []), zone) == []
  {
  }

  /** The log of a zone is its places. */
  lemma {:induction false} FullIsPlaces(sim: Similarity, run: seq<Call>, zone: string, k: nat)
    requires k <= |run|
    ensures AllWithin(PlacesOf(sim, run, zone, k), |run|)
    ensures Full(LogAfter(sim, run[..k]), zone) == Identities(run, PlacesOf(sim, run, zone, k))
  {
    hide LogAfter, IdsOf, Ticks, AllWithin, Extended, HasPlace, AppendPlace;
    PlacesFit(sim, run, zone, k);
    if k == 0 {
      assert run[..0] == [];
      EmptyLog(sim, zone);
    } else {
      FullIsPlaces(sim, run, zone, k - 1);
      PlacesFit(sim, run, zone, k - 1);
      LogPrefixStep(sim, run, k - 1);
      var id := IdsOf(sim, run)[k - 1];
      FullStep(LogAfter(sim, run[..k - 1]), Logged(run[k - 1].sighting, id), zone);
      ExtendedPlaces(run, PlacesOf(sim, run, zone, k - 1), id, k - 1);
      assert Ticks(run)[k - 1].zone == run[k - 1].sighting.zone;
    }
  }

  // ---- Agreement call by call ----

  /** Call k gets the same identity and the same event from the bounded gallery and from the log. */
  predicate AgreesAt(sim: Similarity, run: seq<Call>, k: nat)
    requires k < |run|
  {
    ObserveResult(sim, GalleriesAfter(sim, run[..k]), run[k].sighting, run[k].freshId)
    == ResolveFromLog(sim, LogAfter(sim, run[..k]), run[k].sighting, run[k].freshId)
  }

  /** The gallery the positions predict. */
  function Predicted(sim: Similarity, run: seq<Call>, zone: string, k: nat): Gallery
    requires k <= |run|
  {
    var held := HeldPlaces(Ticks(run), zone, PlacesOf(sim, run, zone, k), k);
    assert AllWithin(held, |run|);
    Shown(run, held)
  }

  lemma LogAt(sim: Similarity, run: seq<Call>, m: nat)
    requires m < |run|
    ensures LogAfter(sim, run)[m].id
            == ResolveFromLog(sim, LogAfter(sim, run)[..m], run[m].sighting, run[m].freshId).id
  {
    hide LogAfter, ResolveFromLog;
    LogPrefix(sim, run, m);
    LogPrefix(sim, run, m + 1);
    assert run[..m + 1] == run[..m] + [run[m]];
    LogStep(sim, run[..m], run[m]);
    assert LogAfter(sim, run)[..m + 1][m] == LogAfter(sim, run)[m];
  }

  /** A logged id is the call's own fresh id, or that of an earlier call of the zone. */
  lemma IdIsFreshOrOld(sim: Similarity, run: seq<Call>, k: nat)
    requires k < |run|
    ensures var id := IdsOf(sim, run)[k];
            id == run[k].freshId || exists p: nat :: p < k && IdsOf(sim, run)[p] == id
  {
    hide LogAfter, IdsOf, Ticks, Trim, Resolve, Scan, Flat, Shown;
    var s := run[k].sighting;
    var ps := PlacesOf(sim, run, s.zone, k);
    var ts := Ticks(run);
    LogAt(sim, run, k);
    LogPrefix(sim, run, k);
    FullIsPlaces(sim, run, s.zone, k);
    PlacesFit(sim, run, s.zone, k);
    TrimShown(run, ps, s.at);
    var recent := RecentPlaces(ts, ps, s.at);
    if Matches(sim, Shown(run, recent), s) {
      MatchIsCandidate(sim, Shown(run, recent), s, run[k].freshId);
      var x := ShownId(run, recent, IdsOf(sim, run)[k]);
      assert PlaceOk(ts, IdsOf(sim, run), s.zone, k, ps[x]);
      assert ps[x].at[0] in ps[x].at;
    } else {
      UnmatchedIsFresh(sim, Shown(run, recent), s, run[k].freshId);
    }
  }

  /** Every logged id was generated by the call itself or an earlier one. */
  lemma {:induction false} IdIsGenerated(sim: Similarity, run: seq<Call>, k: nat) returns (j: nat)
    requires k < |run|
    ensures j <= k && run[j].freshId == IdsOf(sim, run)[k]
  {
    hide IdsOf;
    IdIsFreshOrOld(sim, run, k);
    if IdsOf(sim, run)[k] == run[k].freshId {
      j := k;
    } else {
      var p: nat :| p < k && IdsOf(sim, run)[p] == IdsOf(sim, run)[k];
      j := IdIsGenerated(sim, run, p);
    }
  }

  /** A fresh id names no place yet. */
  lemma FreshHasNoPlace(sim: Similarity, run: seq<Call>, zone: string, k: nat)
    requires k < |run| && FreshIds(run[..k + 1])
    ensures !HasPlace(PlacesOf(sim, run, zone, k), run[k].freshId)
  {
    hide IdsOf, Ticks;
    PlacesFit(sim, run, zone, k);
    var ps := PlacesOf(sim, run, zone, k);
    forall x | 0 <= x < |ps|
      ensures ps[x].id != run[k].freshId
    {
      assert PlaceOk(Ticks(run), IdsOf(sim, run), zone, k, ps[x]);
      assert ps[x].at[0] in ps[x].at;
      var j := IdIsGenerated(sim, run, ps[x].at[0]);
      assert run[..k + 1][j] == run[j] && run[..k + 1][k] == run[k];
    }
  }

  // ---- The gallery after calls that all agreed ----

  lemma FreshEntry(run: seq<Call>, k: nat)
    requires k < |run|
    ensures ShownOne(run, Place(run[k].freshId, [k])) == [Identity(run[k].freshId, Newest([EntryOf(run[k].sighting)]))]
  {
    assert EntriesAt(run, [k]) == [EntryOf(run[k].sighting)] == Newest([EntryOf(run[k].sighting)]);
  }

  /** One call of the zone: from the predicted gallery before it to the predicted gallery after it. */
  lemma PredictedStep(sim: Similarity, run: seq<Call>, k: nat)
    requires k < |run| && FreshIds(run[..k + 1])
    requires var g := Predicted(sim, run, run[k].sighting.zone, k);
             Resolve(sim, Pruned(g, run[k].sighting.at), run[k].sighting, run[k].freshId).id == IdsOf(sim, run)[k]
    ensures var s := run[k].sighting;
            NextGallery(sim, Predicted(sim, run, s.zone, k), s, run[k].freshId) == Predicted(sim, run, s.zone, k + 1)
  {
    hide LogAfter, IdsOf, Resolve, Kept, LivePlaces, Pruned, AddTo, Places, Added;
    var s, ts, ids := run[k].sighting, Ticks(run), IdsOf(sim, run);
    var ps := PlacesOf(sim, run, s.zone, k);
    PlacesFit(sim, run, s.zone, k);
    var held := HeldPlaces(ts, s.zone, ps, k);
    PrunedShown(run, held, s.at);
    var young := YoungPlaces(ts, held, s.at);
    var live := Pruned(Shown(run, held), s.at);
    assert live == Shown(run, young);
    if Matches(sim, live, s) {
      MatchIsCandidate(sim, live, s, run[k].freshId);
      var x := ShownId(run, young, ids[k]);
      assert ps[x].id == ids[k];
      assert HasPlace(ps, ids[k]);
      HeldAfterKnown(ts, ids, s.zone, k);
      AddShown(run, young, ids[k], k);
    } else {
      UnmatchedIsFresh(sim, live, s, run[k].freshId);
      FreshHasNoPlace(sim, run, s.zone, k);
      HeldAfterNew(ts, ids, s.zone, k);
      ShownMore(run, young, Place(ids[k], [k]));
      FreshEntry(run, k);
    }
  }

  lemma GalleriesPrefixStep(sim: Similarity, run: seq<Call>, k: nat, zone: string)
    requires k < |run|
    ensures var s := run[k].sighting;
            GalleryOf(GalleriesAfter(sim, run[..k + 1]), zone)
            == if zone == s.zone
               then NextGallery(sim, GalleryOf(GalleriesAfter(sim, run[..k]), zone), s, run[k].freshId)
               else GalleryOf(GalleriesAfter(sim, run[..k]), zone)
  {
    assert run[..k + 1] == run[..k] + [run[k]];
    GalleriesStep(sim, run[..k], run[k]);
    hide GalleriesAfter, NextGallery;
  }

  lemma FreshBefore(run: seq<Call>, k: nat)
    requires k < |run| && FreshIds(run[..k + 1])
    ensures FreshIds(run[..k])
  {
    assert forall i | 0 <= i < k :: run[..k + 1][i] == run[..k][i];
  }

  lemma NoGallery(sim: Similarity, run: seq<Call>, zone: string)
    ensures GalleryOf(GalleriesAfter(sim, []), zone) == [] == Predicted(sim, run, zone, 0)
  {
  }

  lemma OtherIsPredicted(sim: Similarity, run: seq<Call>, zone: string, k: nat)
    requires k < |run| && zone != run[k].sighting.zone
    ensures Predicted(sim, run, zone, k + 1) == Predicted(sim, run, zone, k)
  {
    HeldAfterOther(Ticks(run), IdsOf(sim, run), zone, k);
    hide IdsOf, Places, Kept, Shown;
  }

  /** As long as all calls of a zone have agreed, its gallery is the predicted one. */
  lemma {:induction false} GalleryIsPredicted(sim: Similarity, run: seq<Call>, zone: string, k: nat)
    requires k <= |run| && FreshIds(run[..k])
    requires forall q: nat | q < k && run[q].sighting.zone == zone :: AgreesAt(sim, run, q)
    ensures GalleryOf(GalleriesAfter(sim, run[..k]), zone) == Predicted(sim, run, zone, k)
  {
    hide GalleriesAfter, LogAfter, IdsOf, Ticks, HeldPlaces, Places, NextGallery, Resolve, Pruned, Trim, Full, FreshIds;
    if k == 0 {
      assert run[..0] == [];
      NoGallery(sim, run, zone);
    } else {
      FreshBefore(run, k - 1);
      GalleryIsPredicted(sim, run, zone, k - 1);
      GalleriesPrefixStep(sim, run, k - 1, zone);
      if zone == run[k - 1].sighting.zone {
        assert AgreesAt(sim, run, k - 1);
        LogAt(sim, run, k - 1);
        LogPrefix(sim, run, k - 1);
        PredictedStep(sim, run, k - 1);
      } else {
        OtherIsPredicted(sim, run, zone, k - 1);
      }
    }
  }

  // ---- Schedules on which the two agree ----

  /** At call n the clock readings so far neither revive an aged sighting nor uncover a covered one. */
  ghost predicate SafeAt(ts: seq<Tick>, n: nat)
    requires n < |ts|
  {
    !Revives(ts, n) && !Uncovers(ts, n)
  }

  ghost predicate Safe(ts: seq<Tick>, zone: string) {
    forall n: nat | n < |ts| && ts[n].zone == zone :: SafeAt(ts, n)
  }

  lemma AllWithinMore(ps: seq<Place>, n: nat, m: nat)
    requires AllWithin(ps, n) && n <= m
    ensures AllWithin(ps, m)
  {
  }

  lemma SafeKeepsNewest(ts: seq<Tick>, at: seq<nat>, n: nat)
    requires n < |ts| && SafeAt(ts, n) && Ascending(at) && InZone(ts, ts[n].zone, at) && Within(at, n)
    ensures LivePlaces(ts, Kept(ts, ts[n].zone, at, n), ts[n].at) == Newest(LivePlaces(ts, at, ts[n].at))
  {
    KeptIsNewest(ts, at, n);
  }

  /** On safe readings the predicted gallery, pruned, is the trimmed log. */
  lemma PredictedIsTrimmed(sim: Similarity, run: seq<Call>, n: nat)
    requires n < |run| && SafeAt(Ticks(run), n)
    ensures var s := run[n].sighting;
            Pruned(Predicted(sim, run, s.zone, n), s.at) == Trim(Full(LogAfter(sim, run[..n]), s.zone), s.at)
  {
    hide LogAfter, IdsOf, Kept, LivePlaces, Pruned, Trim, Places, Newest, SafeAt, Full, Ascending, InZone, Within;
    var s, ts := run[n].sighting, Ticks(run);
    var ps := PlacesOf(sim, run, s.zone, n);
    PlacesFit(sim, run, s.zone, n);
    FullIsPlaces(sim, run, s.zone, n);
    TrimShown(run, ps, s.at);
    var held := HeldPlaces(ts, s.zone, ps, n);
    AllWithinMore(held, n, |run|);
    PrunedShown(run, held, s.at);
    forall x | 0 <= x < |ps|
      ensures YoungPlaces(ts, held, s.at)[x] == RecentPlaces(ts, ps, s.at)[x]
    {
      assert PlaceOk(ts, IdsOf(sim, run), s.zone, n, ps[x]);
      SafeKeepsNewest(ts, ps[x].at, n);
    }
    assert YoungPlaces(ts, held, s.at) == RecentPlaces(ts, ps, s.at);
  }

  /** If a zone's readings were safe at each of its calls up to n, call n agrees. */
  lemma {:induction false} SafeCallsAgree(sim: Similarity, run: seq<Call>, n: nat)
    requires n < |run| && FreshIds(run[..n])
    requires forall q: nat | q <= n && run[q].sighting.zone == run[n].sighting.zone :: SafeAt(Ticks(run), q)
    ensures AgreesAt(sim, run, n)
  {
    hide GalleriesAfter, LogAfter, IdsOf, Predicted, Resolve, Pruned, Trim, Full, SafeAt;
    forall q: nat | q < n && run[q].sighting.zone == run[n].sighting.zone
      ensures AgreesAt(sim, run, q)
    {
      assert forall i | 0 <= i < q :: run[..n][i] == run[..q][i];
      SafeCallsAgree(sim, run, q);
    }
    GalleryIsPredicted(sim, run, run[n].sighting.zone, n);
    PredictedIsTrimmed(sim, run, n);
  }

  /** Whenever the readings of a zone are safe, its gallery, pruned at any safe reading, is what the log keeps. */
  lemma RunAgrees(sim: Similarity, run: seq<Call>, zone: string, now: real)
    requires FreshIds(run) && Safe(Ticks(run) + [Tick(zone, now)], zone)
    ensures Pruned(GalleryOf(GalleriesAfter(sim, run), zone), now) == Trim(Full(LogAfter(sim, run), zone), now)
  {
    var next := run + [Call(Sighting(zone, "", "", [], now), "")];
    assert Ticks(next) == Ticks(run) + [Tick(zone, now)];
    assert next[..|run|] == run;
    hide GalleriesAfter, LogAfter, IdsOf, Ticks, Predicted, Resolve, Pruned, Trim, Full, SafeAt;
    forall q: nat | q < |run| && next[q].sighting.zone == zone
      ensures AgreesAt(sim, next, q)
    {
      assert forall i | 0 <= i < q :: next[..q][i] == run[i];
      SafeCallsAgree(sim, next, q);
    }
    GalleryIsPredicted(sim, next, zone, |run|);
    PredictedIsTrimmed(sim, next, |run|);
  }

  /** On safe readings the bounded galleries answer every call as the unbounded log would. */
  lemma BoundedAnswersAsLog(sim: Similarity, run: seq<Call>, call: Call)
    requires FreshIds(run) && Safe(Ticks(run + [call]), call.sighting.zone)
    ensures ObserveResult(sim, GalleriesAfter(sim, run), call.sighting, call.freshId)
            == ResolveFromLog(sim, LogAfter(sim, run), call.sighting, call.freshId)
  {
    hide GalleriesAfter, LogAfter, Resolve, Pruned, Trim, Full, SafeAt;
    assert Ticks(run + [call]) == Ticks(run) + [Tick(call.sighting.zone, call.sighting.at)];
    RunAgrees(sim, run, call.sighting.zone, call.sighting.at);
  }

  /** A clock that does not go back is safe. */
  lemma ChronologicalIsSafe(run: seq<Call>, zone: string)
    requires Chronological(run)
    ensures Safe(Ticks(run), zone)
  {
    var ts := Ticks(run);
    forall n: nat | n < |ts|
      ensures SafeAt(ts, n)
    {
      forall i: nat | i < n && ts[i].zone == ts[n].zone && Young(ts, i, ts[n].at)
        ensures !Aged(ts, ts[n].zone, i, n)
      {
        assert forall j | i < j < n :: run[j].sighting.at <= run[n].sighting.at;
      }
      forall i: nat, m: nat, newer: seq<nat>
        ensures !UncoversBy(ts, n, i, m, newer)
      {
        assert forall p | i < p < n :: run[i].sighting.at <= run[p].sighting.at;
      }
    }
  }
}
