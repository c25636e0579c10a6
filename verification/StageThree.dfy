// Stage 3 never adds a match, so update equals its two-stage form.

module StageThreeIdle {
  import opened Collections
  import opened Boxes
  import opened Assignments
  import opened Matching
  import opened Tracks
  import opened Trackers
  import opened Frames

  /** The rows a stage hands on are the selected rows its association leaves free. */
  lemma PickedFree(rows: seq<nat>, k: seq<int>, i: nat)
    requires |rows| == |k| && Within(FreeRows(k), |rows|)
    ensures i in Pick(rows, FreeRows(k)) <==> exists r :: 0 <= r < |rows| && rows[r] == i && k[r] == FREE
  {
    FreeRowsWithin(k);
    var free := FreeRows(k);
    hide FreeRows;
    var picked := Pick(rows, free);
    if i in picked {
      var q :| 0 <= q < |picked| && picked[q] == i;
      assert free[q] in free && rows[free[q]] == i;
    }
    if r :| 0 <= r < |rows| && rows[r] == i && k[r] == FREE {
      assert r in free;
      var q :| 0 <= q < |free| && free[q] == r;
      assert picked[q] == i;
    }
  }

  function StageMatch(num: Numerics, ts: seq<TrackRecord>, rows: seq<nat>, ds: seq<Detection>, t: real): (k: seq<int>)
    requires AllShaped(ts) && Within(rows, |ts|)
    ensures Partial(k, |rows|, |ds|)
  {
    Associate(num.solver, CurrentBoxes(num, ts, rows), BoxesOf(ds), t)
  }

  /** The tracks and matched rows a stage returns, in terms of its association. */
  lemma StageResult(num: Numerics, ts: seq<TrackRecord>, rows: seq<nat>, ds: seq<Detection>, t: real)
    requires AllShaped(ts) && Within(rows, |ts|) && Ascending(rows)
    ensures var k, stage := StageMatch(num, ts, rows, ds, t), RunStage(num, ts, rows, ds, t);
            && MarkedUpTo(num, ts, stage.tracks, rows, k, |rows|, ds)
            && (forall r | 0 <= r < |rows| :: rows[r] in stage.matched <==> k[r] != FREE)
            && (forall i | i in stage.matched :: i in rows)
            && Within(FreeRows(k), |rows|)
            && stage.freeRows == Pick(rows, FreeRows(k))
            && stage.freeDets == FreeColumns(k, |ds|)
  {
    var k := StageMatch(num, ts, rows, ds, t);
    FreeRowsWithin(k);
    PairsFitAssignment(k, |rows|, |ds|);
    var stage := RunStage(num, ts, rows, ds, t);
    assert stage.tracks == MarkPairs(num, ts, rows, Pairs(k, |k|), ds);
    assert stage.matched == MatchedRows(rows, Pairs(k, |k|));
    hide *;
    MarkedAt(num, ts, rows, k, |rows|, ds);
    MatchedRowsAt(rows, k, |ds|);
  }

  lemma SpanAscends(n: nat)
    ensures Ascending(Span(0, n)) && Within(Span(0, n), n)
    ensures forall i: nat :: i in Span(0, n) <==> i < n
  {
    forall i: nat | i < n
      ensures i in Span(0, n)
    {
      assert Span(0, n)[i] == i;
    }
  }

  /** Track i of us is track i of ts, matched with its detection if k gives it one. */
  predicate MarkedBy(num: Numerics, ts: seq<TrackRecord>, us: seq<TrackRecord>, k: seq<int>, ds: seq<Detection>)
    requires AllShaped(ts) && |us| == |ts| && Partial(k, |ts|, |ds|)
  {
    forall i | 0 <= i < |ts| :: us[i] == if k[i] != FREE then Matched(num, ts[i], ds[k[i]]) else ts[i]
  }

  lemma MarkedOnAllRows(num: Numerics, ts: seq<TrackRecord>, us: seq<TrackRecord>, k: seq<int>, ds: seq<Detection>)
    requires AllShaped(ts) && |us| == |ts| && Within(Span(0, |ts|), |ts|) && Partial(k, |ts|, |ds|)
    requires MarkedUpTo(num, ts, us, Span(0, |ts|), k, |ts|, ds)
    ensures MarkedBy(num, ts, us, k, ds)
  {
    hide Matched;
    forall i | 0 <= i < |ts|
      ensures us[i] == if k[i] != FREE then Matched(num, ts[i], ds[k[i]]) else ts[i]
    {
      assert us[Span(0, |ts|)[i]] == us[i];
    }
  }

  lemma PickFromSpan(n: nat, rows: seq<nat>)
    requires Within(rows, n)
    ensures Pick(Span(0, n), rows) == rows
  {
  }

  lemma StageOneMatch(num: Numerics, s: Tracker, detections: seq<Detection>)
    requires s.Shape()
    ensures var active := AdvanceAll(s.tracks);
            StageMatch(num, active, Span(0, |active|), HighOf(detections), MATCH_IOU_THRESHOLD)
            == HighMatch(num, s, detections)
  {
    var active := AdvanceAll(s.tracks);
    hide Associate, Advanced;
    assert CurrentBoxes(num, active, Span(0, |active|)) == PredictedBoxes(num, s);
  }

  /** Stage 1 runs on the predicted boxes. */
  lemma StageOneAt(num: Numerics, s: Tracker, detections: seq<Detection>)
    requires s.Shape()
    ensures var k, one := HighMatch(num, s, detections), StageOne(num, s, detections);
            && MarkedBy(num, AdvanceAll(s.tracks), one.tracks, k, HighOf(detections))
            && (forall i: nat | i < |s.tracks| :: i in one.matched <==> k[i] != FREE)
            && one.freeRows == FreeRows(k)
            && one.freeDets == FreeColumns(k, |HighOf(detections)|)
  {
    var active, n, high := AdvanceAll(s.tracks), |s.tracks|, HighOf(detections);
    var k, one := HighMatch(num, s, detections), StageOne(num, s, detections);
    hide *;
    SpanAscends(n);
    StageOneDefinition(num, s, detections);
    StageOneMatch(num, s, detections);
    StageResult(num, active, Span(0, n), high, MATCH_IOU_THRESHOLD);
    MarkedOnAllRows(num, active, one.tracks, k, high);
    PickFromSpan(n, FreeRows(k));
    forall i: nat | i < n
      ensures i in one.matched <==> k[i] != FREE
    {
      assert Span(0, n)[i] == i;
    }
  }

  // ---- Stage 2 sees the leftover tracks with their predicted boxes ----

  /** The rows an assignment leaves free still show their predicted boxes. */
  lemma FreeBoxes(num: Numerics, s: Tracker, us: seq<TrackRecord>, k: seq<int>, ds: seq<Detection>)
    requires s.Shape() && |us| == |s.tracks| && AllShaped(us) && Partial(k, |s.tracks|, |ds|)
    requires MarkedBy(num, AdvanceAll(s.tracks), us, k, ds)
    ensures Within(FreeRows(k), |us|)
    ensures CurrentBoxes(num, us, FreeRows(k)) == Pick(PredictedBoxes(num, s), FreeRows(k))
  {
    FreeRowsWithin(k);
    hide Advanced, Matched, FreeRows;
    var rows := FreeRows(k);
    forall r | 0 <= r < |rows|
      ensures us[rows[r]] == Advanced(s.tracks[rows[r]])
    {
      assert rows[r] in rows;
    }
  }

  lemma StageTwoMatch(num: Numerics, s: Tracker, detections: seq<Detection>)
    requires s.Shape()
    ensures var one := StageOne(num, s, detections);
            && one.freeRows == FreeRows(HighMatch(num, s, detections))
            && LowMatch(num, s, detections)
               == Spread(one.freeRows,
                         StageMatch(num, one.tracks, one.freeRows, LowOf(detections), LOW_CONF_MATCH_IOU_THRESHOLD),
                         |s.tracks|)
  {
    var k, one := HighMatch(num, s, detections), StageOne(num, s, detections);
    StageOneAt(num, s, detections);
    FreeRowsWithin(k);
    hide Associate, Advanced, Matched, StageOne, HighMatch, FreeRows, Spread, Span;
    FreeBoxes(num, s, one.tracks, k, HighOf(detections));
  }

  /** Tracks after stages 1 and 2: matched by k1, else by k2, else only predicted. */
  predicate MarkedByTwo(num: Numerics, ts: seq<TrackRecord>, us: seq<TrackRecord>, k1: seq<int>, high: seq<Detection>,
                        k2: seq<int>, low: seq<Detection>)
    requires AllShaped(ts) && |us| == |ts| && Partial(k1, |ts|, |high|) && Partial(k2, |ts|, |low|)
  {
    forall i | 0 <= i < |ts| :: us[i] ==
      if k1[i] != FREE then Matched(num, ts[i], high[k1[i]])
      else if k2[i] != FREE then Matched(num, ts[i], low[k2[i]])
      else ts[i]
  }

  lemma TwoMarkings(num: Numerics, ts: seq<TrackRecord>, us: seq<TrackRecord>, vs: seq<TrackRecord>,
                    k1: seq<int>, high: seq<Detection>, k: seq<int>, low: seq<Detection>)
    requires AllShaped(ts) && AllShaped(us) && |ts| == |us| == |vs| && Partial(k1, |ts|, |high|)
    requires MarkedBy(num, ts, us, k1, high)
    requires var rows := FreeRows(k1);
             && Within(rows, |ts|) && Ascending(rows) && (forall i: nat :: i in rows <==> i < |ts| && k1[i] == FREE)
             && Partial(k, |rows|, |low|) && MarkedUpTo(num, us, vs, rows, k, |rows|, low)
    ensures Partial(Spread(FreeRows(k1), k, |ts|), |ts|, |low|)
    ensures MarkedByTwo(num, ts, vs, k1, high, Spread(FreeRows(k1), k, |ts|), low)
  {
    var rows := FreeRows(k1);
    var k2 := Spread(rows, k, |ts|);
    SpreadAt(rows, k, |ts|);
    SpreadIsPartial(rows, k, |ts|, |low|);
    hide Matched, FreeRows, Spread;
    forall i: nat | i < |ts|
      ensures vs[i] == if k1[i] != FREE then Matched(num, ts[i], high[k1[i]])
                       else if k2[i] != FREE then Matched(num, ts[i], low[k2[i]]) else ts[i]
    {
      if k1[i] == FREE {
        var r :| 0 <= r < |rows| && rows[r] == i;
        assert k2[rows[r]] == k[r];
      }
    }
  }

  lemma SpreadUse(rows: seq<nat>, k: seq<int>, n: nat, matched: set<nat>, i: nat)
    requires |rows| == |k| && Within(rows, n) && Ascending(rows) && i < n && Within(FreeRows(k), |rows|)
    requires forall r | 0 <= r < |rows| :: rows[r] in matched <==> k[r] != FREE
    requires forall j | j in matched :: j in rows
    ensures i in matched <==> Spread(rows, k, n)[i] != FREE
    ensures i in Pick(rows, FreeRows(k)) <==> i in rows && Spread(rows, k, n)[i] == FREE
  {
    SpreadAt(rows, k, n);
    PickedFree(rows, k, i);
    hide Spread, FreeRows, Pick;
    if i in rows {
      var r :| 0 <= r < |rows| && rows[r] == i;
      assert Spread(rows, k, n)[rows[r]] == k[r];
    }
  }

  /** After stage 2 a track is matched by k1, or else by k2, or else only predicted. */
  lemma StageTwoAt(num: Numerics, s: Tracker, detections: seq<Detection>)
    requires s.Shape()
    ensures var k1, k2 := HighMatch(num, s, detections), LowMatch(num, s, detections);
            var two := StageTwo(num, s, detections);
            && Partial(k2, |s.tracks|, |LowOf(detections)|)
            && MarkedByTwo(num, AdvanceAll(s.tracks), two.tracks, k1, HighOf(detections), k2, LowOf(detections))
            && (forall i: nat | i < |s.tracks| :: i in two.matched <==> k2[i] != FREE)
            && (forall i: nat | i < |s.tracks| :: i in two.freeRows <==> k1[i] == FREE && k2[i] == FREE)
  {
    var n, high, low := |s.tracks|, HighOf(detections), LowOf(detections);
    var k1, k2 := HighMatch(num, s, detections), LowMatch(num, s, detections);
    var one, two := StageOne(num, s, detections), StageTwo(num, s, detections);
    hide *;
    StageOneAt(num, s, detections);
    FreeRowsWithin(k1);
    var rows := FreeRows(k1);
    StageTwoDefinition(num, s, detections);
    StageTwoMatch(num, s, detections);
    StageResult(num, one.tracks, rows, low, LOW_CONF_MATCH_IOU_THRESHOLD);
    var k := StageMatch(num, one.tracks, rows, low, LOW_CONF_MATCH_IOU_THRESHOLD);
    TwoMarkings(num, AdvanceAll(s.tracks), one.tracks, two.tracks, k1, high, k, low);
    forall i: nat | i < n
      ensures i in two.matched <==> k2[i] != FREE
      ensures i in two.freeRows <==> k1[i] == FREE && k2[i] == FREE
    {
      SpreadUse(rows, k, n, two.matched, i);
    }
  }

  // ---- Stage 3 ----

  /** A track and a detection that stage 1 both left over overlap by less than 0.6. */
  lemma LeftoverOverlap(num: Numerics, s: Tracker, detections: seq<Detection>, i: nat, d: nat)
    requires s.Shape() && i < |s.tracks| && d < |HighOf(detections)|
    requires HighMatch(num, s, detections)[i] == FREE && d !in HighMatch(num, s, detections)
    ensures Iou(PredictedBoxes(num, s)[i], HighOf(detections)[d].box) < 0.6
  {
    LeftoversBarelyOverlap(num.solver, PredictedBoxes(num, s), BoxesOf(HighOf(detections)), MATCH_IOU_THRESHOLD, i, d);
  }

  lemma NothingToMatch(solver: Solver, tracks: seq<Box>, dets: seq<Box>, t: real)
    requires forall i, d | 0 <= i < |tracks| && 0 <= d < |dets| :: Iou(tracks[i], dets[d]) < t
    ensures Associate(solver, tracks, dets, t) == Unassigned(|tracks|)
  {
    SolvedIsHeaviest(solver, tracks, dets);
  }

  lemma LeftoverDetections(num: Numerics, s: Tracker, detections: seq<Detection>)
    requires s.Shape()
    ensures StillUnplaced(num, s, detections) == Leftover(num, s, detections)
    ensures forall c | 0 <= c < |Leftover(num, s, detections)| :: exists d ::
              0 <= d < |HighOf(detections)| && Leftover(num, s, detections)[c] == HighOf(detections)[d]
              && d !in HighMatch(num, s, detections)
  {
    var k, m := HighMatch(num, s, detections), |HighOf(detections)|;
    StageOneAt(num, s, detections);
    FreeColumnsWithin(k, m);
    hide HighMatch, FreeColumns, StageOne;
    var cols, left := FreeColumns(k, m), Leftover(num, s, detections);
    forall c | 0 <= c < |left|
      ensures exists d :: 0 <= d < m && left[c] == HighOf(detections)[d] && d !in k
    {
      assert cols[c] in cols;
      assert left[c] == HighOf(detections)[cols[c]];
    }
  }

  /** No tentative leftover track reaches 0.7 with a leftover high-confidence detection. */
  lemma StageThreeHasNoCandidates(num: Numerics, s: Tracker, detections: seq<Detection>, q: nat, c: nat)
    requires s.Shape()
    requires var two := StageTwo(num, s, detections);
             && q < |TentativeRows(two.tracks, two.freeRows)|
             && c < |StillUnplaced(num, s, detections)|
    ensures var two := StageTwo(num, s, detections);
            var rows := TentativeRows(two.tracks, two.freeRows);
            Iou(CurrentBoxes(num, two.tracks, rows)[q], BoxesOf(StillUnplaced(num, s, detections))[c])
            < UNCONFIRMED_MATCH_IOU_THRESHOLD
  {
    var two, k1 := StageTwo(num, s, detections), HighMatch(num, s, detections);
    var rows := TentativeRows(two.tracks, two.freeRows);
    StageTwoAt(num, s, detections);
    LeftoverDetections(num, s, detections);
    hide StageTwo, HighMatch, LowMatch, StillUnplaced, Leftover, Matched, Advanced, Iou, TentativeRows;
    var i := rows[q];
    assert i in rows && i in two.freeRows;
    var d :| 0 <= d < |HighOf(detections)| && Leftover(num, s, detections)[c] == HighOf(detections)[d] && d !in k1;
    assert two.tracks[i] == AdvanceAll(s.tracks)[i];
    LeftoverOverlap(num, s, detections, i, d);
  }

  lemma IdleStage(num: Numerics, ts: seq<TrackRecord>, rows: seq<nat>, ds: seq<Detection>, t: real)
    requires AllShaped(ts) && Within(rows, |ts|)
    requires StageMatch(num, ts, rows, ds, t) == Unassigned(|rows|)
    ensures var stage := RunStage(num, ts, rows, ds, t);
            stage.tracks == ts && stage.matched == {} && stage.freeDets == Span(0, |ds|)
  {
    hide Associate, Matched;
    PairsOfUnassigned(|rows|, |rows|);
    assert Used(Unassigned(|rows|)) == {};
    NothingMissing(|ds|);
  }

  /** Stage 3 returns the tracks of stage 2, matches nothing, and hands on every detection. */
  lemma StageThreeIsIdle(num: Numerics, s: Tracker, detections: seq<Detection>)
    requires s.Shape()
    ensures var two, three := StageTwo(num, s, detections), StageThree(num, s, detections);
            && three.tracks == two.tracks
            && three.matched == {}
            && three.freeDets == Span(0, |StillUnplaced(num, s, detections)|)
  {
    var two, left := StageTwo(num, s, detections), StillUnplaced(num, s, detections);
    var rows := TentativeRows(two.tracks, two.freeRows);
    var boxes := CurrentBoxes(num, two.tracks, rows);
    forall q, c | 0 <= q < |boxes| && 0 <= c < |left|
      ensures Iou(boxes[q], BoxesOf(left)[c]) < UNCONFIRMED_MATCH_IOU_THRESHOLD
    {
      StageThreeHasNoCandidates(num, s, detections, q, c);
    }
    NothingToMatch(num.solver, boxes, BoxesOf(left), UNCONFIRMED_MATCH_IOU_THRESHOLD);
    IdleStage(num, two.tracks, rows, left, UNCONFIRMED_MATCH_IOU_THRESHOLD);
  }

  /** The detections no stage placed are those stage 1 left over. */
  lemma UnplacedIsLeftover(num: Numerics, s: Tracker, detections: seq<Detection>)
    requires s.Shape()
    ensures Unplaced(num, s, detections) == Leftover(num, s, detections)
  {
    hide StageThree, StillUnplaced, Leftover;
    StageThreeIsIdle(num, s, detections);
    LeftoverDetections(num, s, detections);
    var left := Leftover(num, s, detections);
    assert Pick(left, Span(0, |left|)) == left;
  }

  /** After the stages a track is marked with its fate, and counts as matched iff it has one. */
  lemma FateIsMarked(num: Numerics, s: Tracker, detections: seq<Detection>, i: nat)
    requires s.Shape() && i < |s.tracks|
    ensures var fate, two := Fate(num, s, detections, i), StageTwo(num, s, detections);
            && two.tracks[i] == (if fate.Some? then Matched(num, Advanced(s.tracks[i]), fate.value)
                                 else Advanced(s.tracks[i]))
            && (i in StageOne(num, s, detections).matched + two.matched <==> fate.Some?)
  {
    hide StageOne, StageTwo, Matched, Advanced, HighMatch, LowMatch, HighOf, LowOf, FreeRows, FreeColumns;
    StageOneAt(num, s, detections);
    StageTwoAt(num, s, detections);
    assert AdvanceAll(s.tracks)[i] == Advanced(s.tracks[i]);
  }

  lemma SettledAgreeAt(num: Numerics, s: Tracker, detections: seq<Detection>, i: nat)
    requires s.Shape() && i < |s.tracks|
    ensures MissOthers(StageThree(num, s, detections).tracks, MatchedAnywhere(num, s, detections))[i]
         == Settled(num, Advanced(s.tracks[i]), Fate(num, s, detections, i))
  {
    hide StageOne, StageTwo, StageThree, Matched, Unmatched, Advanced, Fate, MissOthers;
    StageThreeIsIdle(num, s, detections);
    FateIsMarked(num, s, detections, i);
    var all := MissOthers(StageThree(num, s, detections).tracks, MatchedAnywhere(num, s, detections));
    var two := StageTwo(num, s, detections);
    assert all[i] == if i in StageOne(num, s, detections).matched + two.matched then two.tracks[i]
                     else Unmatched(two.tracks[i]);
  }

  lemma SettledAgree(num: Numerics, s: Tracker, detections: seq<Detection>)
    requires s.Shape()
    ensures MissOthers(StageThree(num, s, detections).tracks, MatchedAnywhere(num, s, detections))
         == SettledTracks(num, s, detections)
  {
    hide *;
    var all := MissOthers(StageThree(num, s, detections).tracks, MatchedAnywhere(num, s, detections));
    forall i: nat | i < |s.tracks|
      ensures all[i] == SettledTracks(num, s, detections)[i]
    {
      SettledAgreeAt(num, s, detections, i);
    }
  }

  /** Main result: update with three stages computes the same tracker as update with two. */
  lemma ThreeStagesAreTwo(num: Numerics, s: Tracker, detections: seq<Detection>)
    requires s.Shape()
    ensures ThreeStages(num, s, detections) == TwoStages(num, s, detections)
  {
    UnplacedIsLeftover(num, s, detections);
    SettledAgree(num, s, detections);
    hide StageThree, MatchedAnywhere, Unplaced, Leftover, SettledTracks, CleanUp;
  }

  /** A detection that starts a track overlaps every predicted box stage 1 left over by less than 0.6. */
  lemma NewcomersAreApart(num: Numerics, s: Tracker, detections: seq<Detection>, i: nat, c: nat)
    requires s.Shape() && i < |s.tracks| && HighMatch(num, s, detections)[i] == FREE
    requires c < |Leftover(num, s, detections)|
    ensures Iou(PredictedBoxes(num, s)[i], Leftover(num, s, detections)[c].box) < 0.6
  {
    LeftoverDetections(num, s, detections);
    var d :| 0 <= d < |HighOf(detections)| && Leftover(num, s, detections)[c] == HighOf(detections)[d]
             && d !in HighMatch(num, s, detections);
    LeftoverOverlap(num, s, detections, i, d);
  }
}
