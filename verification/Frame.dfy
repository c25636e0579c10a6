// ByteTracker.update as a function: the code's three stages, the two-stage form, and their equality.

module Frames {
  import opened Wrappers
  import opened Collections
  import opened Boxes
  import opened Assignments
  import opened Matching
  import opened Tracks
  import opened Trackers

  lemma PairsFitAssignment(k: seq<int>, n: nat, m: nat)
    requires Partial(k, n, m)
    ensures PairsFit(Pairs(k, |k|), n, m)
  {
    PairsAreRows(k, |k|);
    var pairs := Pairs(k, |k|);
    forall p | 0 <= p < |pairs|
      ensures pairs[p].0 < n && pairs[p].1 < m
    {
      assert (pairs[p].0, pairs[p].1) in pairs;
    }
  }

  lemma FreeRowsWithin(k: seq<int>)
    ensures Within(FreeRows(k), |k|)
    ensures Ascending(FreeRows(k))
    ensures forall i: nat :: i in FreeRows(k) <==> i < |k| && k[i] == FREE
  {
    MissingIsComplement(AssignedRows(k), |k|);
    var rows := FreeRows(k);
    forall r | 0 <= r < |rows|
      ensures rows[r] < |k|
    {
      assert rows[r] in rows;
    }
  }

  lemma FreeColumnsWithin(k: seq<int>, m: nat)
    ensures Within(FreeColumns(k, m), m)
    ensures Ascending(FreeColumns(k, m))
    ensures forall d: nat :: d in FreeColumns(k, m) <==> d < m && d !in Used(k)
  {
    MissingIsComplement(Used(k), m);
    var cols := FreeColumns(k, m);
    forall r | 0 <= r < |cols|
      ensures cols[r] < m
    {
      assert cols[r] in cols;
    }
  }

  /** One association stage: match the tracks at the given rows with detections and mark the matches. */
  datatype Stage = Stage(tracks: seq<TrackRecord>, matched: set<nat>, freeRows: seq<nat>, freeDets: seq<nat>)

  function RunStage(num: Numerics, ts: seq<TrackRecord>, rows: seq<nat>, ds: seq<Detection>, t: real): (s: Stage)
    requires AllShaped(ts) && Within(rows, |ts|)
    ensures |s.tracks| == |ts| && AllShaped(s.tracks)
    ensures Within(s.freeRows, |ts|) && Within(s.freeDets, |ds|)
  {
    var k := Associate(num.solver, CurrentBoxes(num, ts, rows), BoxesOf(ds), t);
    PairsFitAssignment(k, |rows|, |ds|);
    FreeRowsWithin(k);
    FreeColumnsWithin(k, |ds|);
    var pairs := Pairs(k, |k|);
    Stage(MarkPairs(num, ts, rows, pairs, ds), MatchedRows(rows, pairs), Pick(rows, FreeRows(k)),
          FreeColumns(k, |ds|))
  }

  /** Stage 1: high-confidence detections against every active track. */
  function StageOne(num: Numerics, s: Tracker, detections: seq<Detection>): (r: Stage)
    requires s.Shape()
    ensures |r.tracks| == |s.tracks| && AllShaped(r.tracks)
    ensures Within(r.freeRows, |s.tracks|) && Within(r.freeDets, |HighOf(detections)|)
  {
    var active := AdvanceAll(s.tracks);
    RunStage(num, active, Span(0, |active|), HighOf(detections), MATCH_IOU_THRESHOLD)
  }

  /** Stage 2: low-confidence detections against the tracks stage 1 left over. */
  function StageTwo(num: Numerics, s: Tracker, detections: seq<Detection>): (r: Stage)
    requires s.Shape()
    ensures |r.tracks| == |s.tracks| && AllShaped(r.tracks)
    ensures Within(r.freeRows, |s.tracks|)
  {
    var one := StageOne(num, s, detections);
    RunStage(num, one.tracks, one.freeRows, LowOf(detections), LOW_CONF_MATCH_IOU_THRESHOLD)
  }

  function StillUnplaced(num: Numerics, s: Tracker, detections: seq<Detection>): seq<Detection>
    requires s.Shape()
  {
    Pick(HighOf(detections), StageOne(num, s, detections).freeDets)
  }

  /** Stage 3: the leftover high-confidence detections against the leftover tentative tracks. */
  function StageThree(num: Numerics, s: Tracker, detections: seq<Detection>): (r: Stage)
    requires s.Shape()
    ensures |r.tracks| == |s.tracks| && AllShaped(r.tracks)
    ensures Within(r.freeDets, |StillUnplaced(num, s, detections)|)
  {
    var two := StageTwo(num, s, detections);
    RunStage(num, two.tracks, TentativeRows(two.tracks, two.freeRows), StillUnplaced(num, s, detections),
             UNCONFIRMED_MATCH_IOU_THRESHOLD)
  }

  function MatchedAnywhere(num: Numerics, s: Tracker, detections: seq<Detection>): set<nat>
    requires s.Shape()
  {
    StageOne(num, s, detections).matched + StageTwo(num, s, detections).matched + StageThree(num, s, detections).matched
  }

  lemma StageOneDefinition(num: Numerics, s: Tracker, detections: seq<Detection>)
    requires s.Shape()
    ensures StageOne(num, s, detections)
         == RunStage(num, AdvanceAll(s.tracks), Span(0, |s.tracks|), HighOf(detections), MATCH_IOU_THRESHOLD)
  {
    hide RunStage, Advanced;
  }

  lemma StageTwoDefinition(num: Numerics, s: Tracker, detections: seq<Detection>)
    requires s.Shape()
    ensures var one := StageOne(num, s, detections);
            StageTwo(num, s, detections)
            == RunStage(num, one.tracks, one.freeRows, LowOf(detections), LOW_CONF_MATCH_IOU_THRESHOLD)
  {
    hide RunStage, StageOne;
  }

  /** Spawn the newcomers, drop dead tracks, advance the id counter. */
  function CleanUp(s: Tracker, settled: seq<TrackRecord>, newcomers: seq<Detection>): (t: Tracker)
    requires AllShaped(settled)
    ensures t.Shape() && t.cameraId == s.cameraId
  {
    Tracker(s.cameraId, Survivors(settled + SpawnAll(s.cameraId, s.counter, newcomers)), s.counter + |newcomers|)
  }

  /** The detections that no stage placed, in order. */
  function Unplaced(num: Numerics, s: Tracker, detections: seq<Detection>): seq<Detection>
    requires s.Shape()
  {
    Pick(StillUnplaced(num, s, detections), StageThree(num, s, detections).freeDets)
  }

  lemma StageThreeDefinition(num: Numerics, s: Tracker, detections: seq<Detection>)
    requires s.Shape()
    ensures var two, three := StageTwo(num, s, detections), StageThree(num, s, detections);
            && StillUnplaced(num, s, detections) == Pick(HighOf(detections), StageOne(num, s, detections).freeDets)
            && three == RunStage(num, two.tracks, TentativeRows(two.tracks, two.freeRows),
                                 StillUnplaced(num, s, detections), UNCONFIRMED_MATCH_IOU_THRESHOLD)
            && Unplaced(num, s, detections) == Pick(StillUnplaced(num, s, detections), three.freeDets)
  {
    hide RunStage, StageOne, StageTwo, TentativeRows;
  }

  lemma MatchedAnywhereDefinition(num: Numerics, s: Tracker, detections: seq<Detection>)
    requires s.Shape()
    ensures StillUnplaced(num, s, detections) == Pick(HighOf(detections), StageOne(num, s, detections).freeDets)
    ensures MatchedAnywhere(num, s, detections)
         == StageOne(num, s, detections).matched + StageTwo(num, s, detections).matched
            + StageThree(num, s, detections).matched
  {
    hide StageOne, StageTwo, StageThree;
  }

  /** The whole of update, stage by stage as the code runs it. */
  function ThreeStages(num: Numerics, s: Tracker, detections: seq<Detection>): (t: Tracker)
    requires s.Shape()
    ensures t.Shape() && t.cameraId == s.cameraId
  {
    CleanUp(s, MissOthers(StageThree(num, s, detections).tracks, MatchedAnywhere(num, s, detections)),
            Unplaced(num, s, detections))
  }

  lemma ThreeStagesDefinition(num: Numerics, s: Tracker, detections: seq<Detection>)
    requires s.Shape()
    ensures ThreeStages(num, s, detections)
         == Tracker(s.cameraId,
                    Survivors(MissOthers(StageThree(num, s, detections).tracks, MatchedAnywhere(num, s, detections))
                              + SpawnAll(s.cameraId, s.counter, Unplaced(num, s, detections))),
                    s.counter + |Unplaced(num, s, detections)|)
  {
    hide StageThree, MatchedAnywhere, Unplaced, MissOthers, Survivors, SpawnAll;
  }

  // ---- The two-stage form ----

  /** Lay an assignment of selected rows out over all n rows. */
  function Spread(rows: seq<nat>, k: seq<int>, n: nat): (a: seq<int>)
    requires |rows| == |k| && Within(rows, n)
    ensures |a| == n
  {
    if rows == [] then Unassigned(n)
    else
      var last := |rows| - 1;
      Spread(rows[..last], k[..last], n)[rows[last] := k[last]]
  }

  /** The predicted boxes of all live tracks. */
  function PredictedBoxes(num: Numerics, s: Tracker): (bs: seq<Box>)
    requires s.Shape()
    ensures |bs| == |s.tracks|
    ensures forall i | 0 <= i < |bs| :: bs[i] == Advanced(s.tracks[i]).CurrentBox(num)
  {
    seq(|s.tracks|, i requires 0 <= i < |s.tracks| => Advanced(s.tracks[i]).CurrentBox(num))
  }

  /** Stage 1 on predicted boxes: per track, its high-confidence detection or FREE. */
  function HighMatch(num: Numerics, s: Tracker, detections: seq<Detection>): (k: seq<int>)
    requires s.Shape()
    ensures Partial(k, |s.tracks|, |HighOf(detections)|)
  {
    Associate(num.solver, PredictedBoxes(num, s), BoxesOf(HighOf(detections)), MATCH_IOU_THRESHOLD)
  }

  /** Stage 2 on the predicted boxes stage 1 left over: per track, its low-confidence detection or FREE. */
  function LowMatch(num: Numerics, s: Tracker, detections: seq<Detection>): (k: seq<int>)
    requires s.Shape()
    ensures |k| == |s.tracks|
  {
    FreeRowsWithin(HighMatch(num, s, detections));
    var rows := FreeRows(HighMatch(num, s, detections));
    Spread(rows,
           Associate(num.solver, Pick(PredictedBoxes(num, s), rows), BoxesOf(LowOf(detections)),
                     LOW_CONF_MATCH_IOU_THRESHOLD),
           |s.tracks|)
  }

  lemma {:induction false} SpreadAt(rows: seq<nat>, k: seq<int>, n: nat)
    requires |rows| == |k| && Within(rows, n) && Ascending(rows)
    ensures forall r | 0 <= r < |rows| :: Spread(rows, k, n)[rows[r]] == k[r]
    ensures forall i: nat | i < n && i !in rows :: Spread(rows, k, n)[i] == FREE
  {
    if rows != [] {
      var last := |rows| - 1;
      SpreadAt(rows[..last], k[..last], n);
      assert rows == rows[..last] + [rows[last]];
    }
  }

  lemma SpreadIsPartial(rows: seq<nat>, k: seq<int>, n: nat, m: nat)
    requires Within(rows, n) && Ascending(rows) && Partial(k, |rows|, m)
    ensures Partial(Spread(rows, k, n), n, m)
  {
    var a := Spread(rows, k, n);
    SpreadAt(rows, k, n);
    forall i | 0 <= i < n
      ensures FREE <= a[i] < m
    {
      if i in rows {
        var r :| 0 <= r < |rows| && rows[r] == i;
      }
    }
    forall i, j | 0 <= i < j < n && a[i] != FREE
      ensures a[i] != a[j]
    {
      assert i in rows;
      if j in rows {
        var r :| 0 <= r < |rows| && rows[r] == i;
        var q :| 0 <= q < |rows| && rows[q] == j;
      }
    }
  }

  /** Stage 2 never gives a track to two detections, nor a second detection to a stage-1 track. */
  lemma LowMatchIsPartial(num: Numerics, s: Tracker, detections: seq<Detection>)
    requires s.Shape()
    ensures var k1, k2 := HighMatch(num, s, detections), LowMatch(num, s, detections);
            && Partial(k2, |s.tracks|, |LowOf(detections)|)
            && forall i | 0 <= i < |s.tracks| && k2[i] != FREE :: k1[i] == FREE
  {
    var k1 := HighMatch(num, s, detections);
    FreeRowsWithin(k1);
    var rows := FreeRows(k1);
    var k := Associate(num.solver, Pick(PredictedBoxes(num, s), rows), BoxesOf(LowOf(detections)),
                       LOW_CONF_MATCH_IOU_THRESHOLD);
    SpreadAt(rows, k, |s.tracks|);
    SpreadIsPartial(rows, k, |s.tracks|, |LowOf(detections)|);
  }

  /** The detection that updates track i in this frame, if any. */
  function Fate(num: Numerics, s: Tracker, detections: seq<Detection>, i: nat): (d: Option<Detection>)
    requires s.Shape() && i < |s.tracks|
  {
    LowMatchIsPartial(num, s, detections);
    var k1, k2 := HighMatch(num, s, detections), LowMatch(num, s, detections);
    if k1[i] != FREE then Some(HighOf(detections)[k1[i]])
    else if k2[i] != FREE then Some(LowOf(detections)[k2[i]])
    else None
  }

  function Settled(num: Numerics, t: TrackRecord, d: Option<Detection>): (u: TrackRecord)
    requires t.Shape()
    ensures u.Shape()
  {
    match d
    case Some(detection) => Matched(num, t, detection)
    case None => Unmatched(t)
  }

  /** All tracks after association and ageing, before the clean-up. */
  function SettledTracks(num: Numerics, s: Tracker, detections: seq<Detection>): (ts: seq<TrackRecord>)
    requires s.Shape()
    ensures |ts| == |s.tracks| && AllShaped(ts)
    ensures forall i | 0 <= i < |ts| ::
              ts[i] == Settled(num, Advanced(s.tracks[i]), Fate(num, s, detections, i))
  {
    seq(|s.tracks|, i requires 0 <= i < |s.tracks| =>
      Settled(num, Advanced(s.tracks[i]), Fate(num, s, detections, i)))
  }

  /** The high-confidence detections that stage 1 left over, in order. */
  function Leftover(num: Numerics, s: Tracker, detections: seq<Detection>): seq<Detection>
    requires s.Shape()
  {
    var k := HighMatch(num, s, detections);
    FreeColumnsWithin(k, |HighOf(detections)|);
    Pick(HighOf(detections), FreeColumns(k, |HighOf(detections)|))
  }

  /** Update with two stages: every high-confidence detection that stage 1 leaves over starts a track. */
  function TwoStages(num: Numerics, s: Tracker, detections: seq<Detection>): (t: Tracker)
    requires s.Shape()
    ensures t.Shape() && t.cameraId == s.cameraId
  {
    CleanUp(s, SettledTracks(num, s, detections), Leftover(num, s, detections))
  }

  // ---- Marking matches, track by track ----

  lemma MarkOneMore(num: Numerics, ts: seq<TrackRecord>, rows: seq<nat>, pairs: seq<Pair>, p: Pair, ds: seq<Detection>)
    requires AllShaped(ts) && Within(rows, |ts|) && PairsFit(pairs + [p], |rows|, |ds|)
    ensures PairsFit(pairs, |rows|, |ds|) && p.0 < |rows| && p.1 < |ds|
    ensures var us := MarkPairs(num, ts, rows, pairs, ds);
            MarkPairs(num, ts, rows, pairs + [p], ds) == us[rows[p.0] := Matched(num, us[rows[p.0]], ds[p.1])]
  {
    var all := pairs + [p];
    assert all[|pairs|] == p;
    assert all[..|all| - 1] == pairs;
    assert forall q | 0 <= q < |pairs| :: all[q] == pairs[q];
  }

  /** The first n selected rows are marked with their detections; everything else is unchanged. */
  predicate MarkedUpTo(num: Numerics, ts: seq<TrackRecord>, us: seq<TrackRecord>, rows: seq<nat>, k: seq<int>, n: nat,
                       ds: seq<Detection>)
    requires AllShaped(ts) && |us| == |ts| && Within(rows, |ts|) && Partial(k, |rows|, |ds|)
  {
    && (forall r | 0 <= r < |rows| ::
          us[rows[r]] == if r < n && k[r] != FREE then Matched(num, ts[rows[r]], ds[k[r]]) else ts[rows[r]])
    && (forall i: nat | i < |ts| && i !in rows :: us[i] == ts[i])
  }

  lemma MarkStep(num: Numerics, ts: seq<TrackRecord>, us: seq<TrackRecord>, rows: seq<nat>, k: seq<int>, n: nat,
                 ds: seq<Detection>)
    requires AllShaped(ts) && |us| == |ts| && Within(rows, |ts|) && Ascending(rows) && Partial(k, |rows|, |ds|)
    requires n < |rows| && MarkedUpTo(num, ts, us, rows, k, n, ds)
    ensures k[n] == FREE ==> MarkedUpTo(num, ts, us, rows, k, n + 1, ds)
    ensures k[n] != FREE ==>
              us[rows[n]] == ts[rows[n]]
              && MarkedUpTo(num, ts, us[rows[n] := Matched(num, ts[rows[n]], ds[k[n]])], rows, k, n + 1, ds)
  {
    hide Matched;
    assert rows[n] in rows;
  }

  lemma NothingMarked(num: Numerics, ts: seq<TrackRecord>, rows: seq<nat>, k: seq<int>, ds: seq<Detection>)
    requires AllShaped(ts) && Within(rows, |ts|) && Partial(k, |rows|, |ds|)
    ensures PairsFit(Pairs(k, 0), |rows|, |ds|)
    ensures MarkedUpTo(num, ts, MarkPairs(num, ts, rows, Pairs(k, 0), ds), rows, k, 0, ds)
  {
  }

  /** After marking, row r's track is matched with its detection; other tracks are unchanged. */
  lemma {:induction false} MarkedAt(num: Numerics, ts: seq<TrackRecord>, rows: seq<nat>, k: seq<int>, n: nat,
                                    ds: seq<Detection>)
    requires AllShaped(ts) && Within(rows, |ts|) && Ascending(rows)
    requires Partial(k, |rows|, |ds|) && n <= |rows|
    requires PairsFit(Pairs(k, n), |rows|, |ds|)
    ensures MarkedUpTo(num, ts, MarkPairs(num, ts, rows, Pairs(k, n), ds), rows, k, n, ds)
  {
    hide MarkPairs, MarkedUpTo, Matched, PairsFit;
    if n == 0 {
      NothingMarked(num, ts, rows, k, ds);
    } else if k[n - 1] == FREE {
      assert Pairs(k, n) == Pairs(k, n - 1);
      MarkedAt(num, ts, rows, k, n - 1, ds);
      MarkStep(num, ts, MarkPairs(num, ts, rows, Pairs(k, n - 1), ds), rows, k, n - 1, ds);
    } else {
      assert Pairs(k, n) == Pairs(k, n - 1) + [(n - 1, k[n - 1])];
      MarkOneMore(num, ts, rows, Pairs(k, n - 1), (n - 1, k[n - 1]), ds);
      MarkedAt(num, ts, rows, k, n - 1, ds);
      MarkStep(num, ts, MarkPairs(num, ts, rows, Pairs(k, n - 1), ds), rows, k, n - 1, ds);
    }
  }

  /** The rows marked by a stage are those its assignment uses. */
  lemma MatchedRowsAt(rows: seq<nat>, k: seq<int>, m: nat)
    requires Ascending(rows) && Partial(k, |rows|, m)
    requires PairsFit(Pairs(k, |k|), |rows|, m)
    ensures forall r | 0 <= r < |rows| :: rows[r] in MatchedRows(rows, Pairs(k, |k|)) <==> k[r] != FREE
    ensures forall i: nat :: i in MatchedRows(rows, Pairs(k, |k|)) ==> i in rows
  {
    var pairs := Pairs(k, |k|);
    PairsAreRows(k, |k|);
    forall r: nat | r < |rows|
      ensures rows[r] in MatchedRows(rows, pairs) <==> k[r] != FREE
    {
      if k[r] != FREE {
        assert (r, k[r]) in pairs;
      }
      if rows[r] in MatchedRows(rows, pairs) {
        var p :| 0 <= p < |pairs| && rows[pairs[p].0] == rows[r];
        assert (pairs[p].0, pairs[p].1) in pairs;
      }
    }
  }
}
