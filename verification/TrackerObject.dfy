// STrack, the id allocator and ByteTracker as objects, proved against the frame functions.

module TrackerObjects {
  import opened Collections
  import opened Boxes
  import opened Matching
  import opened BoxFilters
  import opened Tracks
  import opened Trackers
  import opened Frames
  import TrackIds

  class TrackIdAllocator {
    const cameraId: string
    var counter: nat

    constructor (cameraId: string)
      ensures this.cameraId == cameraId && counter == 0
    {
      this.cameraId := cameraId;
      counter := 0;
    }

    method NextId() returns (id: string)
      modifies this
      ensures counter == old(counter) + 1
      ensures id == TrackIds.Format(cameraId, counter)
    {
      counter := counter + 1;
      id := TrackIds.Format(cameraId, counter);
    }
  }

  class STrack {
    const trackId: string
    const cameraId: string
    const classId: int
    const className: string
    var state: TrackState
    var hits: nat
    var ageFrames: nat
    var timeSinceUpdate: nat
    var lastConfidence: real
    const kalman: BoxKalmanFilter

    ghost predicate Valid()
      reads this, kalman
    {
      kalman.Valid()
    }

    ghost function Value(): TrackRecord
      reads this, kalman
    {
      TrackRecord(trackId, cameraId, classId, className, lastConfidence,
                  Life(state, hits, ageFrames, timeSinceUpdate), kalman.Contents())
    }

    constructor (trackId: string, cameraId: string, detection: Detection)
      ensures Valid() && fresh(kalman)
      ensures Value() == Spawned(trackId, cameraId, detection)
    {
      this.trackId := trackId;
      this.cameraId := cameraId;
      classId := detection.classId;
      className := detection.className;
      state := Tentative;
      hits := 1;
      ageFrames := 1;
      timeSinceUpdate := 0;
      lastConfidence := detection.confidence;
      kalman := new BoxKalmanFilter(detection.box);
    }

    /** predict, and the age increment that update performs with it. */
    method Advance(num: Numerics)
      requires Valid()
      modifies this, kalman
      ensures Valid() && Value() == Advanced(old(Value()))
    {
      var _ := kalman.Predict(num.sqrt);
      ageFrames := ageFrames + 1;
    }

    method MarkMatched(num: Numerics, detection: Detection)
      requires Valid()
      modifies this, kalman
      ensures Valid() && Value() == Matched(num, old(Value()), detection)
    {
      kalman.Update(num.inverse, detection.box);
      hits := hits + 1;
      timeSinceUpdate := 0;
      lastConfidence := detection.confidence;
      if state == Lost {
        state := Confirmed;
      } else if state == Tentative && hits >= MIN_HITS_TO_CONFIRM {
        state := Confirmed;
      }
    }

    method MarkUnmatched()
      requires Valid()
      modifies this
      ensures Valid() && Value() == Unmatched(old(Value()))
    {
      timeSinceUpdate := timeSinceUpdate + 1;
      if state == Confirmed {
        state := Lost;
      } else if state == Tentative && timeSinceUpdate > 0 {
        state := Removed;
      }
    }

    method ToTrack(num: Numerics, frameId: string) returns (t: Track)
      requires Valid()
      ensures t == Value().ToTrack(num, frameId)
    {
      var box := kalman.CurrentBox(num.sqrt);
      t := Track(trackId, cameraId, frameId, box, classId, className, lastConfidence, state, hits, ageFrames);
    }
  }

  /** All objects behind a list of tracks. */
  ghost function Footprint(ts: seq<STrack>): (objects: set<object>)
    ensures forall t | t in ts :: t in objects && t.kalman in objects
    ensures forall o | o in objects :: o is STrack || o is BoxKalmanFilter
  {
    (set t | t in ts :: t as object) + (set t | t in ts :: t.kalman as object)
  }

  /** No two positions share a track or a filter. */
  ghost predicate Separate(ts: seq<STrack>) {
    forall i, j | 0 <= i < j < |ts| :: ts[i] != ts[j] && ts[i].kalman != ts[j].kalman
  }

  ghost predicate AllValid(ts: seq<STrack>)
    reads Footprint(ts)
  {
    forall i | 0 <= i < |ts| :: ts[i].Valid()
  }

  ghost function Values(ts: seq<STrack>): (vs: seq<TrackRecord>)
    reads Footprint(ts)
    ensures |vs| == |ts|
    ensures forall i | 0 <= i < |ts| :: vs[i] == ts[i].Value()
    ensures AllValid(ts) ==> AllShaped(vs)
  {
    seq(|ts|, i requires 0 <= i < |ts| reads Footprint(ts) => ts[i].Value())
  }

  /** The loop that predicts and ages every track. */
  method AdvanceTracks(num: Numerics, ts: seq<STrack>)
    requires Separate(ts) && AllValid(ts)
    modifies Footprint(ts)
    ensures AllValid(ts) && Values(ts) == AdvanceAll(old(Values(ts)))
  {
    ghost var was := Values(ts);
    hide Advanced, STrack.Value;
    for i := 0 to |ts|
      invariant AllValid(ts)
      invariant forall k | 0 <= k < i :: ts[k].Value() == Advanced(was[k])
      invariant forall k | i <= k < |ts| :: ts[k].Value() == was[k]
    {
      ts[i].Advance(num);
    }
  }

  /** Marking one track leaves every other track alone. */
  method MarkRow(num: Numerics, ts: seq<STrack>, row: nat, detection: Detection)
    requires Separate(ts) && AllValid(ts) && row < |ts|
    modifies Footprint(ts)
    ensures AllValid(ts)
    ensures Values(ts) == old(Values(ts))[row := Matched(num, old(Values(ts))[row], detection)]
  {
    hide Matched, STrack.Value;
    ts[row].MarkMatched(num, detection);
    forall k | 0 <= k < |ts| && k != row
      ensures ts[k].Value() == old(ts[k].Value())
    {
    }
  }

  /** The marking after p pairs, as the loop below reaches it. */
  ghost function MarkedSoFar(num: Numerics, was: seq<TrackRecord>, rows: seq<nat>, pairs: seq<Pair>, p: nat,
                             dets: seq<Detection>): seq<TrackRecord>
    requires AllShaped(was) && Within(rows, |was|) && PairsFit(pairs, |rows|, |dets|) && p <= |pairs|
  {
    MarkPairs(num, was, rows, pairs[..p], dets)
  }

  lemma MarkNextPair(num: Numerics, was: seq<TrackRecord>, rows: seq<nat>, pairs: seq<Pair>, p: nat,
                     dets: seq<Detection>)
    requires AllShaped(was) && Within(rows, |was|) && PairsFit(pairs, |rows|, |dets|) && p < |pairs|
    ensures var us, row := MarkedSoFar(num, was, rows, pairs, p, dets), rows[pairs[p].0];
            && |us| == |was| && AllShaped(us)
            && MarkedSoFar(num, was, rows, pairs, p + 1, dets) == us[row := Matched(num, us[row], dets[pairs[p].1])]
  {
    hide Matched;
    assert pairs[..p + 1] == pairs[..p] + [pairs[p]];
    MarkOneMore(num, was, rows, pairs[..p], pairs[p], dets);
  }

  lemma MarkedEnds(num: Numerics, was: seq<TrackRecord>, rows: seq<nat>, pairs: seq<Pair>, dets: seq<Detection>)
    requires AllShaped(was) && Within(rows, |was|) && PairsFit(pairs, |rows|, |dets|)
    ensures MarkedSoFar(num, was, rows, pairs, 0, dets) == was
    ensures MarkedSoFar(num, was, rows, pairs, |pairs|, dets) == MarkPairs(num, was, rows, pairs, dets)
  {
    assert pairs[..0] == [] && pairs[..|pairs|] == pairs;
  }

  /** mark_matched for every pair of a stage. */
  method MarkMatches(num: Numerics, ts: seq<STrack>, rows: seq<nat>, pairs: seq<Pair>, dets: seq<Detection>)
    requires Separate(ts) && AllValid(ts)
    requires Within(rows, |ts|) && PairsFit(pairs, |rows|, |dets|)
    modifies Footprint(ts)
    ensures AllValid(ts)
    ensures Values(ts) == MarkPairs(num, old(Values(ts)), rows, pairs, dets)
  {
    ghost var was := Values(ts);
    hide Matched, STrack.Value, MarkedSoFar, Footprint, AllValid, Separate, Values, AllShaped;
    MarkedEnds(num, was, rows, pairs, dets);
    for p := 0 to |pairs|
      invariant AllValid(ts)
      invariant Values(ts) == MarkedSoFar(num, was, rows, pairs, p, dets)
    {
      MarkNextPair(num, was, rows, pairs, p, dets);
      MarkRow(num, ts, rows[pairs[p].0], dets[pairs[p].1]);
    }
  }

  /** mark_unmatched for every track outside the matched set. */
  method MarkMisses(ts: seq<STrack>, matched: set<nat>)
    requires Separate(ts) && AllValid(ts)
    modifies Footprint(ts)
    ensures AllValid(ts) && Values(ts) == MissOthers(old(Values(ts)), matched)
  {
    hide MissLife, STrack.Valid;
    for i := 0 to |ts|
      invariant AllValid(ts)
      invariant forall k | 0 <= k < i ::
                  ts[k].Value() == if k in matched then old(ts[k].Value()) else Unmatched(old(ts[k].Value()))
      invariant forall k | i <= k < |ts| :: ts[k].Value() == old(ts[k].Value())
    {
      if i !in matched {
        ts[i].MarkUnmatched();
      }
    }
  }

  /** The current boxes of the tracks at the given rows. */
  method BoxesAt(num: Numerics, ts: seq<STrack>, rows: seq<nat>) returns (boxes: seq<Box>)
    requires AllValid(ts) && Within(rows, |ts|)
    ensures boxes == CurrentBoxes(num, Values(ts), rows)
  {
    boxes := [];
    for r := 0 to |rows|
      invariant |boxes| == r
      invariant forall q | 0 <= q < r :: boxes[q] == Values(ts)[rows[q]].CurrentBox(num)
    {
      var box := ts[rows[r]].kalman.CurrentBox(num.sqrt);
      boxes := boxes + [box];
    }
  }

  /** The rows among those given whose track is tentative. */
  method SelectTentative(ts: seq<STrack>, rows: seq<nat>) returns (tentative: seq<nat>)
    requires AllValid(ts) && Within(rows, |ts|)
    ensures tentative == TentativeRows(Values(ts), rows)
  {
    tentative := [];
    for r := 0 to |rows|
      invariant Within(rows[..r], |ts|)
      invariant tentative == TentativeRows(Values(ts), rows[..r])
    {
      assert rows[..r + 1][..r] == rows[..r];
      if ts[rows[r]].state == Tentative {
        tentative := tentative + [rows[r]];
      }
    }
    assert rows[..|rows|] == rows;
  }

  method SplitDetections(ds: seq<Detection>) returns (high: seq<Detection>, low: seq<Detection>)
    ensures high == HighOf(ds) && low == LowOf(ds)
  {
    high, low := [], [];
    for i := 0 to |ds|
      invariant high == HighOf(ds[..i]) && low == LowOf(ds[..i])
    {
      assert ds[..i + 1][..i] == ds[..i];
      if IsHigh(ds[i]) {
        high := high + [ds[i]];
      }
      if IsLow(ds[i]) {
        low := low + [ds[i]];
      }
    }
    assert ds[..|ds|] == ds;
  }

  /** One stage of update: match, mark, and report what is left. */
  method Associating(num: Numerics, ts: seq<STrack>, rows: seq<nat>, dets: seq<Detection>, t: real)
    returns (matched: set<nat>, freeRows: seq<nat>, freeDets: seq<nat>)
    requires Separate(ts) && AllValid(ts) && Within(rows, |ts|)
    modifies Footprint(ts)
    ensures AllValid(ts)
    ensures Stage(Values(ts), matched, freeRows, freeDets) == RunStage(num, old(Values(ts)), rows, dets, t)
  {
    hide Associate, Matched, MarkPairs, STrack.Value, FreeRows, FreeColumns, Pairs;
    ghost var was := Values(ts);
    ghost var k := Associate(num.solver, CurrentBoxes(num, was, rows), BoxesOf(dets), t);
    PairsFitAssignment(k, |rows|, |dets|);
    FreeRowsWithin(k);
    var boxes := BoxesAt(num, ts, rows);
    var pairs, unmatchedRows;
    pairs, unmatchedRows, freeDets := MatchByIou(num.solver, boxes, BoxesOf(dets), t);
    MarkMatches(num, ts, rows, pairs, dets);
    matched := MatchedRows(rows, pairs);
    freeRows := Pick(rows, unmatchedRows);
  }

  lemma IndicesFit(n: nat)
    ensures Within(Span(0, n), n)
  {
  }

  /** Stage 1, on the tracks the frame has just predicted. */
  method FirstStage(num: Numerics, ts: seq<STrack>, ghost s: Tracker, ghost detections: seq<Detection>,
                    high: seq<Detection>)
    returns (matched: set<nat>, rest: seq<nat>, left: seq<nat>)
    requires Separate(ts) && AllValid(ts) && s.Shape()
    requires Values(ts) == AdvanceAll(s.tracks) && high == HighOf(detections)
    modifies Footprint(ts)
    ensures AllValid(ts)
    ensures Stage(Values(ts), matched, rest, left) == StageOne(num, s, detections)
  {
    hide *;
    StageOneDefinition(num, s, detections);
    IndicesFit(|ts|);
    matched, rest, left := Associating(num, ts, Span(0, |ts|), high, MATCH_IOU_THRESHOLD);
  }

  /** Stage 2, on the tracks and rows stage 1 returned. */
  method SecondStage(num: Numerics, ts: seq<STrack>, ghost s: Tracker, ghost detections: seq<Detection>,
                     rest1: seq<nat>, low: seq<Detection>)
    returns (matched: set<nat>, rest: seq<nat>)
    requires Separate(ts) && AllValid(ts) && s.Shape()
    requires var one := StageOne(num, s, detections); Values(ts) == one.tracks && rest1 == one.freeRows
    requires low == LowOf(detections)
    modifies Footprint(ts)
    ensures AllValid(ts)
    ensures var two := StageTwo(num, s, detections);
            Values(ts) == two.tracks && matched == two.matched && rest == two.freeRows
  {
    hide *;
    StageTwoDefinition(num, s, detections);
    var left;
    matched, rest, left := Associating(num, ts, rest1, low, LOW_CONF_MATCH_IOU_THRESHOLD);
  }

  /** Stage 3, on the tracks and rows stage 2 returned and the detections stage 1 left. */
  method ThirdStage(num: Numerics, ts: seq<STrack>, ghost s: Tracker, ghost detections: seq<Detection>,
                    rest2: seq<nat>, leftover: seq<Detection>)
    returns (matched: set<nat>, unplaced: seq<Detection>)
    requires Separate(ts) && AllValid(ts) && s.Shape()
    requires var two := StageTwo(num, s, detections); Values(ts) == two.tracks && rest2 == two.freeRows
    requires leftover == StillUnplaced(num, s, detections)
    modifies Footprint(ts)
    ensures AllValid(ts)
    ensures var three := StageThree(num, s, detections); Values(ts) == three.tracks && matched == three.matched
    ensures unplaced == Unplaced(num, s, detections)
  {
    hide StageOne, StageTwo, StageThree, StillUnplaced, Unplaced, RunStage, TentativeRows, HighOf, Pick, Separate,
      STrack.Value, STrack.Valid;
    StageThreeDefinition(num, s, detections);
    var tentative := SelectTentative(ts, rest2);
    var rest, left;
    matched, rest, left := Associating(num, ts, tentative, leftover, UNCONFIRMED_MATCH_IOU_THRESHOLD);
    unplaced := Pick(leftover, left);
  }

  /** Predict, run the three association stages, and age what stays unmatched. */
  method AssociateTracks(num: Numerics, ts: seq<STrack>, ghost s: Tracker, detections: seq<Detection>)
    returns (unplaced: seq<Detection>)
    requires Separate(ts) && AllValid(ts) && s.Shape() && Values(ts) == s.tracks
    modifies Footprint(ts)
    ensures AllValid(ts)
    ensures Values(ts) == MissOthers(StageThree(num, s, detections).tracks, MatchedAnywhere(num, s, detections))
    ensures unplaced == Unplaced(num, s, detections)
  {
    hide STrack.Value, STrack.Valid, HighOf, LowOf, MissOthers, StageOne, StageTwo, StageThree, StillUnplaced,
      MatchedAnywhere, Unplaced, Separate, AdvanceAll, Pick, AllShaped;
    MatchedAnywhereDefinition(num, s, detections);
    var high, low := SplitDetections(detections);
    AdvanceTracks(num, ts);
    var matched1, rest1, left1 := FirstStage(num, ts, s, detections, high);
    var matched2, rest2 := SecondStage(num, ts, s, detections, rest1, low);
    var matched3;
    matched3, unplaced := ThirdStage(num, ts, s, detections, rest2, Pick(high, left1));
    MarkMisses(ts, matched1 + matched2 + matched3);
  }

  lemma CreatedValues(ts: seq<STrack>, expected: seq<TrackRecord>)
    requires |ts| == |expected|
    requires forall i | 0 <= i < |ts| :: ts[i].Valid() && ts[i].Value() == expected[i]
    ensures AllValid(ts) && Values(ts) == expected
  {
    hide STrack.Value, STrack.Valid;
  }

  /** The spawn loop: a fresh id and a fresh track object for every detection no stage placed. */
  method CreateTracks(allocator: TrackIdAllocator, dets: seq<Detection>) returns (created: seq<STrack>)
    modifies allocator
    ensures allocator.counter == old(allocator.counter) + |dets|
    ensures Separate(created) && AllValid(created) && fresh(Footprint(created))
    ensures Values(created) == SpawnAll(allocator.cameraId, old(allocator.counter), dets)
  {
    created := [];
    ghost var n := allocator.counter;
    ghost var expected := SpawnAll(allocator.cameraId, n, dets);
    hide Spawned, STrack.Value, STrack.Valid, AllValid, Values;
    for d := 0 to |dets|
      invariant |created| == d && allocator.counter == n + d
      invariant Separate(created)
      invariant forall i | 0 <= i < d :: fresh(created[i]) && fresh(created[i].kalman)
      invariant forall i | 0 <= i < d :: created[i].Valid() && created[i].Value() == expected[i]
    {
      var id := allocator.NextId();
      var track := new STrack(id, allocator.cameraId, dets[d]);
      created := created + [track];
    }
    CreatedValues(created, expected);
  }

  lemma PickKeepsSeparate(ts: seq<STrack>, rows: seq<nat>)
    requires Separate(ts) && Within(rows, |ts|) && Ascending(rows)
    ensures Separate(Pick(ts, rows)) && Footprint(Pick(ts, rows)) <= Footprint(ts)
  {
  }

  lemma PickedValues(ts: seq<STrack>, rows: seq<nat>)
    requires AllValid(ts) && Within(rows, |ts|)
    ensures AllValid(Pick(ts, rows)) && Values(Pick(ts, rows)) == Pick(Values(ts), rows)
  {
    hide STrack.Value, STrack.Valid;
  }

  /** Dropping dead tracks keeps the rest separate, valid and in order. */
  lemma KeptTracks(ts: seq<STrack>)
    requires Separate(ts) && AllValid(ts)
    ensures var kept := Pick(ts, AliveRows(Values(ts)));
            && Separate(kept) && AllValid(kept) && Footprint(kept) <= Footprint(ts)
            && Values(kept) == Survivors(Values(ts))
  {
    var rows := AliveRows(Values(ts));
    hide *;
    SurvivorsArePicked(Values(ts));
    PickKeepsSeparate(ts, rows);
    PickedValues(ts, rows);
  }

  /** The lifecycle fields the clean-up reads. */
  ghost predicate FieldsAre(ts: seq<STrack>, vs: seq<TrackRecord>)
    reads Footprint(ts)
  {
    && |vs| == |ts|
    && forall i | 0 <= i < |ts| :: ts[i].state == vs[i].life.state && ts[i].timeSinceUpdate == vs[i].life.sinceUpdate
  }

  lemma FieldsOfValues(ts: seq<STrack>)
    requires AllValid(ts)
    ensures FieldsAre(ts, Values(ts))
  {
  }

  /** The clean-up loop: removed and aged-out tracks are left out. */
  method SelectAlive(ts: seq<STrack>, ghost vs: seq<TrackRecord>) returns (kept: seq<STrack>)
    requires FieldsAre(ts, vs)
    ensures kept == Pick(ts, AliveRows(vs))
  {
    ghost var rows: seq<nat> := [];
    kept := [];
    for i := 0 to |ts|
      invariant rows == AliveRows(vs[..i]) && |kept| == |rows|
      invariant forall r | 0 <= r < |rows| :: rows[r] < i && kept[r] == ts[rows[r]]
    {
      assert vs[..i + 1][..i] == vs[..i];
      if !(ts[i].state == Removed || ts[i].timeSinceUpdate > MAX_LOST_FRAMES) {
        kept := kept + [ts[i]];
        rows := rows + [i];
      }
    }
    assert vs[..|ts|] == vs;
  }

  /** Dead tracks are dropped. */
  method KeepAlive(ts: seq<STrack>) returns (kept: seq<STrack>)
    requires Separate(ts) && AllValid(ts)
    ensures Separate(kept) && AllValid(kept) && Footprint(kept) <= Footprint(ts)
    ensures Values(kept) == Survivors(old(Values(ts)))
  {
    hide STrack.Value, STrack.Valid, Separate, Footprint, Pick, FieldsAre;
    FieldsOfValues(ts);
    ghost var vs := Values(ts);
    kept := SelectAlive(ts, vs);
    assert AllValid(ts) && Values(ts) == vs;
    KeptTracks(ts);
  }

  lemma JoinTracks(a: seq<STrack>, b: seq<STrack>)
    requires Separate(a) && Separate(b) && Footprint(a) !! Footprint(b) && AllValid(a) && AllValid(b)
    ensures Separate(a + b) && AllValid(a + b) && Values(a + b) == Values(a) + Values(b)
    ensures Footprint(a + b) == Footprint(a) + Footprint(b)
  {
    hide STrack.Value, STrack.Valid;
    forall i, j | 0 <= i < |a| && 0 <= j < |b|
      ensures a[i] != b[j] && a[i].kalman != b[j].kalman
    {
      assert a[i] in a && b[j] in b;
    }
  }

  method PublishTracks(num: Numerics, ts: seq<STrack>, frameId: string) returns (output: seq<Track>)
    requires AllValid(ts)
    ensures output == Published(num, Values(ts), frameId)
  {
    output := [];
    hide TrackRecord.ToTrack, STrack.Value;
    for i := 0 to |ts|
      invariant |output| == i
      invariant forall k | 0 <= k < i :: output[k] == Values(ts)[k].ToTrack(num, frameId)
    {
      var t := ts[i].ToTrack(num, frameId);
      output := output + [t];
    }
  }

  /** Detections that no stage placed become new tracks. */
  method SpawnTracks(allocator: TrackIdAllocator, ts: seq<STrack>, unplaced: seq<Detection>) returns (all: seq<STrack>)
    requires Separate(ts) && AllValid(ts)
    modifies allocator
    ensures allocator.counter == old(allocator.counter) + |unplaced|
    ensures Separate(all) && AllValid(all) && forall o | o in Footprint(all) :: o in Footprint(ts) || fresh(o)
    ensures Values(all) == old(Values(ts)) + SpawnAll(allocator.cameraId, old(allocator.counter), unplaced)
  {
    hide SpawnAll, STrack.Value, STrack.Valid, Separate;
    ghost var before := Footprint(ts);
    var created := CreateTracks(allocator, unplaced);
    assert before !! Footprint(created);
    JoinTracks(ts, created);
    all := ts + created;
  }

  /** The survivors of these tracks and the new ones. */
  ghost function CleanedUp(cameraId: string, counter: nat, vs: seq<TrackRecord>, unplaced: seq<Detection>)
    : seq<TrackRecord>
  {
    Survivors(vs + SpawnAll(cameraId, counter, unplaced))
  }

  lemma CleanedUpDefinition(cameraId: string, counter: nat, vs: seq<TrackRecord>, unplaced: seq<Detection>)
    ensures CleanedUp(cameraId, counter, vs, unplaced) == Survivors(vs + SpawnAll(cameraId, counter, unplaced))
  {
  }

  lemma FrameIsCleanedUp(num: Numerics, s: Tracker, detections: seq<Detection>)
    requires s.Shape()
    ensures var vs := MissOthers(StageThree(num, s, detections).tracks, MatchedAnywhere(num, s, detections));
            var unplaced := Unplaced(num, s, detections);
            ThreeStages(num, s, detections)
            == Tracker(s.cameraId, CleanedUp(s.cameraId, s.counter, vs, unplaced), s.counter + |unplaced|)
  {
    hide StageThree, MatchedAnywhere, Unplaced, MissOthers, Survivors, SpawnAll, ThreeStages;
    ThreeStagesDefinition(num, s, detections);
  }

  /** Add the new tracks, then drop the dead ones. */
  method SpawnAndDrop(allocator: TrackIdAllocator, ts: seq<STrack>, unplaced: seq<Detection>)
    returns (kept: seq<STrack>)
    requires Separate(ts) && AllValid(ts)
    modifies allocator
    ensures allocator.counter == old(allocator.counter) + |unplaced|
    ensures Separate(kept) && AllValid(kept) && forall o | o in Footprint(kept) :: o in Footprint(ts) || fresh(o)
    ensures Values(kept) == CleanedUp(allocator.cameraId, old(allocator.counter), old(Values(ts)), unplaced)
  {
    hide *;
    CleanedUpDefinition(allocator.cameraId, allocator.counter, Values(ts), unplaced);
    var all := SpawnTracks(allocator, ts, unplaced);
    kept := KeepAlive(all);
  }

  /** The tracks and the id counter after one frame: associate, spawn, drop the dead. */
  method AdvanceFrame(num: Numerics, allocator: TrackIdAllocator, ts: seq<STrack>, ghost s: Tracker,
                      detections: seq<Detection>)
    returns (kept: seq<STrack>)
    requires Separate(ts) && AllValid(ts) && s.Shape()
    requires s == Tracker(allocator.cameraId, Values(ts), allocator.counter)
    modifies allocator, Footprint(ts)
    ensures Separate(kept) && AllValid(kept) && forall o | o in Footprint(kept) :: o in Footprint(ts) || fresh(o)
    ensures Tracker(allocator.cameraId, Values(kept), allocator.counter) == ThreeStages(num, s, detections)
  {
    hide *;
    FrameIsCleanedUp(num, s, detections);
    var unplaced := AssociateTracks(num, ts, s, detections);
    kept := SpawnAndDrop(allocator, ts, unplaced);
  }

  class ByteTracker {
    const cameraId: string
    const allocator: TrackIdAllocator
    /** The values of the tracks dictionary, in insertion order; each key is the track's own id. */
    var tracks: seq<STrack>
    /** The tracker as a value, and the objects it owns. */
    ghost var Contents: Tracker
    ghost var Repr: set<object>

    ghost predicate Valid()
      reads this, Repr
      ensures Valid() ==> this in Repr && Contents.Shape()
    {
      this in Repr && Owned() <= Repr && Intact() && Contents == Current() && Contents.cameraId == cameraId
    }

    ghost function Owned(): (objects: set<object>)
      reads this
      ensures this in objects
      ensures forall o | o in objects ::
                o is ByteTracker || o is TrackIdAllocator || o is STrack || o is BoxKalmanFilter
    {
      {this, allocator} + Footprint(tracks)
    }

    ghost predicate Intact()
      reads this, Owned()
    {
      Separate(tracks) && AllValid(tracks) && allocator.cameraId == cameraId
    }

    ghost function Current(): (s: Tracker)
      requires Intact()
      reads this, Owned()
      ensures s.Shape()
    {
      Tracker(cameraId, Values(tracks), allocator.counter)
    }

    constructor (cameraId: string, allocator: TrackIdAllocator)
      requires allocator.cameraId == cameraId && allocator.counter == 0
      ensures Valid() && Repr == {this, allocator}
      ensures Contents == NewTracker(cameraId)
      ensures this.cameraId == cameraId
    {
      this.cameraId := cameraId;
      this.allocator := allocator;
      tracks := [];
      Contents := NewTracker(cameraId);
      Repr := {this, allocator};
    }

    ghost method Refresh()
      requires Intact()
      modifies `Contents, `Repr
      ensures Valid() && Contents == Current() && Repr == old(Repr) + {this} + Owned()
    {
      hide STrack.Value, STrack.Valid;
      Contents := Current();
      Repr := Repr + {this} + Owned();
    }

    /** Advance one frame and publish every surviving track. */
    method Update(num: Numerics, detections: seq<Detection>, frameId: string) returns (output: seq<Track>)
      requires Valid()
      modifies Repr
      ensures Valid() && fresh(Repr - old(Repr))
      ensures Contents == ThreeStages(num, old(Contents), detections)
      ensures output == Published(num, Contents.tracks, frameId)
    {
      hide STrack.Value, STrack.Valid, ThreeStages, Published, Separate, AllValid, Values;
      tracks := AdvanceFrame(num, allocator, tracks, Contents, detections);
      Refresh();
      output := PublishTracks(num, tracks, frameId);
    }
  }
}
