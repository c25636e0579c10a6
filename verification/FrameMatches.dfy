// Which detections update which tracks in one frame, told by positions in the frame and overlaps on predicted boxes.

module FrameMatches {
  import opened Wrappers
  import opened Collections
  import opened Boxes
  import opened Assignments
  import opened Matching
  import opened BoxFilters
  import opened Tracks
  import opened Trackers
  import opened Frames
  import DenseFilter

  /** The overlap of the track's predicted box and the detection. */
  function PredictedOverlap(num: Numerics, t: TrackRecord, d: Detection): real
    requires t.Shape()
  {
    Iou(ToBox(num.sqrt, DenseFilter.Predict(t.filter).x), d.box)
  }

  /** The detection may update the track: the overlap reaches what the detection's stage asks for. */
  predicate MayMatch(num: Numerics, t: TrackRecord, d: Detection)
    requires t.Shape()
  {
    PredictedOverlap(num, t, d) >= if d.confidence >= 0.6 then 0.3 else 0.5
  }

  lemma OverlapIsEntry(num: Numerics, s: Tracker, i: nat, d: Detection)
    requires s.Shape() && i < |s.tracks|
    ensures PredictedOverlap(num, s.tracks[i], d) == Iou(PredictedBoxes(num, s)[i], d.box)
  {
    hide Iou, ToBox, DenseFilter.Predict;
  }

  lemma HighFateMayMatch(num: Numerics, s: Tracker, detections: seq<Detection>, i: nat)
    requires s.Shape() && i < |s.tracks| && HighMatch(num, s, detections)[i] != FREE
    ensures MayMatch(num, s.tracks[i], HighOf(detections)[HighMatch(num, s, detections)[i]])
  {
    var d := HighMatch(num, s, detections)[i];
    MatchesAreSound(num.solver, PredictedBoxes(num, s), BoxesOf(HighOf(detections)), MATCH_IOU_THRESHOLD, i, i);
    OverlapIsEntry(num, s, i, HighOf(detections)[d]);
    assert IsHigh(HighOf(detections)[d]);
    hide HighOf, Iou, Associate, ExchangeIsIdle, PredictedOverlap;
  }

  /** Stage 2 seen from a track it matches: row r of the tracks that stage 1 left over. */
  lemma LowMatchAt(num: Numerics, s: Tracker, detections: seq<Detection>, i: nat) returns (r: nat)
    requires s.Shape() && i < |s.tracks| && HighMatch(num, s, detections)[i] == FREE
    ensures var free := FreeRows(HighMatch(num, s, detections));
            && Within(free, |s.tracks|) && r < |free| && free[r] == i
            && var k := Associate(num.solver, Pick(PredictedBoxes(num, s), free), BoxesOf(LowOf(detections)),
                                  LOW_CONF_MATCH_IOU_THRESHOLD);
            LowMatch(num, s, detections)[i] == k[r]
  {
    var free := FreeRows(HighMatch(num, s, detections));
    FreeRowsWithin(HighMatch(num, s, detections));
    hide HighMatch, FreeRows, LowOf, Associate;
    var k := Associate(num.solver, Pick(PredictedBoxes(num, s), free), BoxesOf(LowOf(detections)),
                       LOW_CONF_MATCH_IOU_THRESHOLD);
    SpreadAt(free, k, |s.tracks|);
    assert i in free;
    r :| 0 <= r < |free| && free[r] == i;
  }

  lemma LowFateMayMatch(num: Numerics, s: Tracker, detections: seq<Detection>, i: nat)
    requires s.Shape() && i < |s.tracks| && HighMatch(num, s, detections)[i] == FREE
    requires FREE < LowMatch(num, s, detections)[i] < |LowOf(detections)|
    ensures MayMatch(num, s.tracks[i], LowOf(detections)[LowMatch(num, s, detections)[i]])
  {
    hide HighMatch, LowMatch, FreeRows, LowOf, Iou, Associate, ExchangeIsIdle, PredictedOverlap;
    var d := LowMatch(num, s, detections)[i];
    var r := LowMatchAt(num, s, detections, i);
    var boxes := Pick(PredictedBoxes(num, s), FreeRows(HighMatch(num, s, detections)));
    MatchesAreSound(num.solver, boxes, BoxesOf(LowOf(detections)), LOW_CONF_MATCH_IOU_THRESHOLD, r, r);
    OverlapIsEntry(num, s, i, LowOf(detections)[d]);
    assert IsLow(LowOf(detections)[d]);
  }

  lemma FateAt(num: Numerics, s: Tracker, detections: seq<Detection>, i: nat, high: seq<nat>, low: seq<nat>)
      returns (p: nat)
    requires s.Shape() && i < |s.tracks| && Fate(num, s, detections, i).Some?
    requires Within(high, |detections|) && HighOf(detections) == Pick(detections, high)
    requires Within(low, |detections|) && LowOf(detections) == Pick(detections, low)
    ensures var k1, k2 := HighMatch(num, s, detections)[i], LowMatch(num, s, detections)[i];
            if k1 != FREE then k1 < |high| && p == high[k1] else FREE < k2 < |low| && p == low[k2]
    ensures p < |detections| && Fate(num, s, detections, i) == Some(detections[p])
    ensures detections[p].confidence >= 0.1 && MayMatch(num, s.tracks[i], detections[p])
  {
    LowMatchIsPartial(num, s, detections);
    hide HighMatch, LowMatch, HighOf, LowOf, MayMatch;
    if HighMatch(num, s, detections)[i] != FREE {
      HighFateMayMatch(num, s, detections, i);
      assert IsHigh(HighOf(detections)[HighMatch(num, s, detections)[i]]);
      p := high[HighMatch(num, s, detections)[i]];
    } else {
      LowFateMayMatch(num, s, detections, i);
      assert IsLow(LowOf(detections)[LowMatch(num, s, detections)[i]]);
      p := low[LowMatch(num, s, detections)[i]];
    }
  }

  /**
   * The detections that update two tracks are at different positions of the frame, and each overlaps its track's
   * predicted box by at least 0.3, if of high confidence, or else by at least 0.5.
   */
  lemma UpdatesAreMatches(num: Numerics, s: Tracker, detections: seq<Detection>, i: nat, j: nat)
      returns (p: nat, q: nat)
    requires s.Shape() && i < |s.tracks| && j < |s.tracks|
    requires Fate(num, s, detections, i).Some? && Fate(num, s, detections, j).Some?
    ensures p < |detections| && q < |detections| && (p == q <==> i == j)
    ensures Fate(num, s, detections, i) == Some(detections[p]) && Fate(num, s, detections, j) == Some(detections[q])
    ensures detections[p].confidence >= 0.1 && MayMatch(num, s.tracks[i], detections[p])
    ensures detections[q].confidence >= 0.1 && MayMatch(num, s.tracks[j], detections[q])
  {
    hide HighMatch, LowMatch, HighOf, LowOf, MayMatch, Fate;
    LowMatchIsPartial(num, s, detections);
    var high := HighOfIs(detections);
    var low := LowOfIs(detections);
    p := FateAt(num, s, detections, i, high, low);
    q := FateAt(num, s, detections, j, high, low);
    assert p in high <==> HighMatch(num, s, detections)[i] != FREE;
    assert q in high <==> HighMatch(num, s, detections)[j] != FREE;
  }

  lemma SpreadKeepsValues(rows: seq<nat>, k: seq<int>, n: nat, d: int)
    requires |rows| == |k| && Within(rows, n) && Ascending(rows) && d in k
    ensures d in Spread(rows, k, n)
  {
    SpreadAt(rows, k, n);
    var x :| 0 <= x < |k| && k[x] == d;
    assert Spread(rows, k, n)[rows[x]] == d;
  }

  lemma StageTwoLeaves(num: Numerics, s: Tracker, detections: seq<Detection>, d: nat)
    requires s.Shape() && d !in LowMatch(num, s, detections)
    ensures var free := FreeRows(HighMatch(num, s, detections));
            && Within(free, |s.tracks|)
            && d !in Associate(num.solver, Pick(PredictedBoxes(num, s), free), BoxesOf(LowOf(detections)),
                               LOW_CONF_MATCH_IOU_THRESHOLD)
  {
    var free := FreeRows(HighMatch(num, s, detections));
    FreeRowsWithin(HighMatch(num, s, detections));
    hide HighMatch, FreeRows, LowOf, Associate, Spread;
    var k := Associate(num.solver, Pick(PredictedBoxes(num, s), free), BoxesOf(LowOf(detections)),
                       LOW_CONF_MATCH_IOU_THRESHOLD);
    if d in k {
      SpreadKeepsValues(free, k, |s.tracks|, d);
    }
  }

  /** A track and a low-confidence detection that both stages leave over do not coincide on the predicted box. */
  lemma LowLeftoversDiffer(num: Numerics, s: Tracker, detections: seq<Detection>, i: nat, d: nat)
    requires s.Shape() && i < |s.tracks| && d < |LowOf(detections)|
    requires Fate(num, s, detections, i).None? && d !in LowMatch(num, s, detections)
    ensures PredictedOverlap(num, s.tracks[i], LowOf(detections)[d]) < 1.0
  {
    hide HighMatch, LowMatch, FreeRows, LowOf, Iou, Associate, PredictedOverlap;
    var r := LowMatchAt(num, s, detections, i);
    StageTwoLeaves(num, s, detections, d);
    var boxes := Pick(PredictedBoxes(num, s), FreeRows(HighMatch(num, s, detections)));
    LeftoversBarelyOverlap(num.solver, boxes, BoxesOf(LowOf(detections)), LOW_CONF_MATCH_IOU_THRESHOLD, r, d);
    OverlapIsEntry(num, s, i, LowOf(detections)[d]);
  }
}
