// Where every detection goes, in one frame and over whole runs.

module Conservation {
  import opened Assignments
  import opened Matching
  import opened Tracks
  import opened Trackers
  import opened Frames
  import opened Lifecycle
  import opened TrackerRuns
  import StageThreeIdle
  import TrackIds

  // ---- One frame ----

  /** Position c of the detections that start a track is the high-confidence detection d. */
  predicate StartsTrackAt(num: Numerics, s: Tracker, detections: seq<Detection>, d: nat, c: nat)
    requires s.Shape()
  {
    var k, m := HighMatch(num, s, detections), |HighOf(detections)|;
    c < |FreeColumns(k, m)| && FreeColumns(k, m)[c] == d
  }

  /** Starting at position c means being the detection from which the code spawns its new track number c. */
  lemma StartIsLeftover(num: Numerics, s: Tracker, detections: seq<Detection>, d: nat, c: nat)
    requires s.Shape() && d < |HighOf(detections)| && StartsTrackAt(num, s, detections, d, c)
    ensures c < |Unplaced(num, s, detections)| && Unplaced(num, s, detections)[c] == HighOf(detections)[d]
  {
    StageThreeIdle.UnplacedIsLeftover(num, s, detections);
    FreeColumnsWithin(HighMatch(num, s, detections), |HighOf(detections)|);
    hide HighMatch, FreeColumns, Unplaced;
  }

  /**
   * Each high-confidence detection updates exactly one track or is spawned as exactly one new track of the code's
   * three stages, never both.
   */
  lemma HighDetectionPlacedOnce(num: Numerics, s: Tracker, detections: seq<Detection>, d: nat)
    requires s.Shape() && d < |HighOf(detections)|
    ensures var k := HighMatch(num, s, detections);
            && ((exists i :: 0 <= i < |k| && k[i] == d)
                <==> !(exists c: nat :: StartsTrackAt(num, s, detections, d, c)))
            && (forall i, j | 0 <= i < |k| && 0 <= j < |k| && k[i] == d && k[j] == d :: i == j)
            && (forall b: nat, c: nat
                  | StartsTrackAt(num, s, detections, d, b) && StartsTrackAt(num, s, detections, d, c) ::
                  b == c)
            && (forall c: nat | StartsTrackAt(num, s, detections, d, c) ::
                  c < |Unplaced(num, s, detections)| && Unplaced(num, s, detections)[c] == HighOf(detections)[d])
  {
    hide HighMatch, FreeColumns, Unplaced;
    var k, m := HighMatch(num, s, detections), |HighOf(detections)|;
    FreeColumnsWithin(k, m);
    var cols := FreeColumns(k, m);
    if d !in k {
      assert d in cols;
      var c :| 0 <= c < |cols| && cols[c] == d;
      assert StartsTrackAt(num, s, detections, d, c);
    }
    forall c: nat | StartsTrackAt(num, s, detections, d, c)
      ensures d !in k
      ensures c < |Unplaced(num, s, detections)| && Unplaced(num, s, detections)[c] == HighOf(detections)[d]
    {
      assert cols[c] in cols;
      StartIsLeftover(num, s, detections, d, c);
    }
  }

  /** Each low-confidence detection updates at most one track, only one that stage 1 left over, and starts none. */
  lemma LowDetectionPlacedAtMostOnce(num: Numerics, s: Tracker, detections: seq<Detection>, i: nat, j: nat)
    requires s.Shape() && i < |s.tracks| && j < |s.tracks|
    ensures var k1, k2 := HighMatch(num, s, detections), LowMatch(num, s, detections);
            && (k2[i] != FREE && k2[i] == k2[j] ==> i == j)
            && (k2[i] != FREE ==> k1[i] == FREE)
    ensures forall c | 0 <= c < |Leftover(num, s, detections)| :: IsHigh(Leftover(num, s, detections)[c])
  {
    LowMatchIsPartial(num, s, detections);
    FreeColumnsWithin(HighMatch(num, s, detections), |HighOf(detections)|);
    hide HighMatch, LowMatch, FreeColumns;
  }

  /** The detections at or above the low threshold. */
  function Relevant(ds: seq<Detection>): seq<Detection> {
    if ds == [] then []
    else Relevant(ds[..|ds| - 1])
         + (if ds[|ds| - 1].confidence >= LOW_CONF_THRESHOLD then [ds[|ds| - 1]] else [])
  }

  lemma {:induction false} RelevantSplits(ds: seq<Detection>)
    ensures HighOf(Relevant(ds)) == HighOf(ds) && LowOf(Relevant(ds)) == LowOf(ds)
  {
    if ds != [] {
      var rest, last := Relevant(ds[..|ds| - 1]), ds[|ds| - 1];
      RelevantSplits(ds[..|ds| - 1]);
      if last.confidence >= LOW_CONF_THRESHOLD {
        assert Relevant(ds)[..|Relevant(ds)| - 1] == rest;
      } else {
        assert Relevant(ds) == rest;
      }
    }
  }

  lemma SameSplitSameResult(num: Numerics, s: Tracker, ds: seq<Detection>, es: seq<Detection>)
    requires s.Shape() && HighOf(ds) == HighOf(es) && LowOf(ds) == LowOf(es)
    ensures TwoStages(num, s, ds) == TwoStages(num, s, es)
  {
    assert HighMatch(num, s, ds) == HighMatch(num, s, es);
    assert LowMatch(num, s, ds) == LowMatch(num, s, es);
    hide HighMatch, LowMatch, HighOf, LowOf, CleanUp;
    assert forall i: nat | i < |s.tracks| :: Fate(num, s, ds, i) == Fate(num, s, es, i);
    hide Fate, Settled, Advanced;
    assert SettledTracks(num, s, ds) == SettledTracks(num, s, es);
  }

  /** Detections below 0.1 have no effect on the tracker. */
  lemma NoiseIsIgnored(num: Numerics, s: Tracker, detections: seq<Detection>)
    requires s.Shape()
    ensures ThreeStages(num, s, Relevant(detections)) == ThreeStages(num, s, detections)
  {
    RelevantSplits(detections);
    StageThreeIdle.ThreeStagesAreTwo(num, s, detections);
    StageThreeIdle.ThreeStagesAreTwo(num, s, Relevant(detections));
    SameSplitSameResult(num, s, detections, Relevant(detections));
    hide *;
  }

  // ---- Counting hits over a run ----

  /** The hit counters of a list of tracks, added up. */
  function SumHits(ts: seq<TrackRecord>): nat {
    if ts == [] then 0 else SumHits(ts[..|ts| - 1]) + ts[|ts| - 1].life.hits
  }

  /** All tracks of the code's three stages before the clean-up. */
  function FrameTracks(num: Numerics, s: Tracker, detections: seq<Detection>): seq<TrackRecord>
    requires s.Shape()
  {
    MissOthers(StageThree(num, s, detections).tracks, MatchedAnywhere(num, s, detections))
    + SpawnAll(s.cameraId, s.counter, Unplaced(num, s, detections))
  }

  /** The tracks that the clean-up deletes, in order. */
  function DroppedOf(ts: seq<TrackRecord>): (us: seq<TrackRecord>)
    ensures forall t :: t in us <==> t in ts && Dropped(t.life)
  {
    if ts == [] then []
    else
      var last := ts[|ts| - 1];
      assert ts == ts[..|ts| - 1] + [last];
      DroppedOf(ts[..|ts| - 1]) + (if Dropped(last.life) then [last] else [])
  }

  /** The records of all tracks a run deleted, as they were when deleted. */
  function DroppedInRun(num: Numerics, cameraId: string, frames: seq<seq<Detection>>): seq<TrackRecord> {
    if frames == [] then []
    else
      var before := frames[..|frames| - 1];
      DroppedInRun(num, cameraId, before)
      + DroppedOf(FrameTracks(num, PlainRun(num, cameraId, before), frames[|frames| - 1]))
  }

  /** The detections a frame accepts: every high-confidence one, and the low-confidence ones stage 2 matched. */
  function AcceptedInFrame(num: Numerics, s: Tracker, detections: seq<Detection>): nat
    requires s.Shape()
  {
    |HighOf(detections)| + Size(LowMatch(num, s, detections))
  }

  function Accepted(num: Numerics, cameraId: string, frames: seq<seq<Detection>>): nat {
    if frames == [] then 0
    else
      var before := frames[..|frames| - 1];
      Accepted(num, cameraId, before) + AcceptedInFrame(num, PlainRun(num, cameraId, before), frames[|frames| - 1])
  }

  lemma FrameTracksAgree(num: Numerics, s: Tracker, detections: seq<Detection>)
    requires s.Shape()
    ensures FrameTracks(num, s, detections) == BeforeCleanUp(num, s, detections)
    ensures ThreeStages(num, s, detections).tracks == Survivors(FrameTracks(num, s, detections))
  {
    StageThreeIdle.SettledAgree(num, s, detections);
    StageThreeIdle.UnplacedIsLeftover(num, s, detections);
    ThreeStagesDefinition(num, s, detections);
    hide ThreeStages, MissOthers, StageThree, MatchedAnywhere, Unplaced, Leftover, SettledTracks, SpawnAll, Survivors;
  }

  lemma {:induction false} SumHitsAppend(a: seq<TrackRecord>, b: seq<TrackRecord>)
    ensures SumHits(a + b) == SumHits(a) + SumHits(b)
  {
    if b == [] {
      assert a + b == a;
    } else {
      assert (a + b)[..|a + b| - 1] == a + b[..|b| - 1];
      SumHitsAppend(a, b[..|b| - 1]);
    }
  }

  lemma SumHitsOne(t: TrackRecord)
    ensures SumHits([t]) == t.life.hits
  {
    assert [t][..0] == [];
  }

  lemma NoHits()
    ensures SumHits([]) == 0
  {
  }

  /** The clean-up loses no hits: they go to the survivors and to the deleted. */
  lemma {:induction false} CleanUpSplits(ts: seq<TrackRecord>)
    ensures SumHits(ts) == SumHits(Survivors(ts)) + SumHits(DroppedOf(ts))
  {
    hide Dropped;
    if ts != [] {
      var before, last := ts[..|ts| - 1], ts[|ts| - 1];
      CleanUpSplits(before);
      SumHitsOne(last);
      NoHits();
      SumHitsAppend(Survivors(before), if Dropped(last.life) then [] else [last]);
      SumHitsAppend(DroppedOf(before), if Dropped(last.life) then [last] else []);
    }
  }

  function HitRows(num: Numerics, s: Tracker, detections: seq<Detection>): (rows: set<int>)
    requires s.Shape()
    ensures forall i :: i in rows <==> 0 <= i < |s.tracks| && Fate(num, s, detections, i).Some?
  {
    set i | 0 <= i < |s.tracks| && Fate(num, s, detections, i).Some?
  }

  function RowsBelow(rows: set<int>, n: nat): set<int> {
    set i | i in rows && i < n
  }

  lemma RowsBelowStep(rows: set<int>, n: nat)
    requires n > 0 && forall i | i in rows :: 0 <= i
    ensures |RowsBelow(rows, n)| == |RowsBelow(rows, n - 1)| + if n - 1 in rows then 1 else 0
    ensures RowsBelow(rows, 0) == {}
  {
    if n - 1 in rows {
      assert RowsBelow(rows, n) == RowsBelow(rows, n - 1) + {n - 1};
    } else {
      assert RowsBelow(rows, n) == RowsBelow(rows, n - 1);
    }
  }

  lemma SumHitsStep(ts: seq<TrackRecord>, n: nat)
    requires 0 < n <= |ts|
    ensures SumHits(ts[..n]) == SumHits(ts[..n - 1]) + ts[n - 1].life.hits
  {
    assert ts[..n][..n - 1] == ts[..n - 1];
  }

  lemma {:induction false} GrownHits(ts: seq<TrackRecord>, us: seq<TrackRecord>, rows: set<int>, n: nat)
    requires n <= |ts| == |us| && forall i | i in rows :: 0 <= i
    requires forall i | 0 <= i < |ts| :: us[i].life.hits == ts[i].life.hits + if i in rows then 1 else 0
    ensures SumHits(us[..n]) == SumHits(ts[..n]) + |RowsBelow(rows, n)|
  {
    hide RowsBelow, SumHits;
    if n == 0 {
      RowsBelowStep(rows, 1);
      NoHits();
      assert us[..0] == [] && ts[..0] == [];
    } else {
      GrownHits(ts, us, rows, n - 1);
      SumHitsStep(us, n);
      SumHitsStep(ts, n);
      RowsBelowStep(rows, n);
    }
  }

  lemma {:induction false} NewcomerHits(ts: seq<TrackRecord>)
    requires forall i | 0 <= i < |ts| :: ts[i].life == NEWBORN
    ensures SumHits(ts) == |ts|
  {
    if ts != [] {
      NewcomerHits(ts[..|ts| - 1]);
    }
  }

  lemma FateFromMatches(num: Numerics, s: Tracker, detections: seq<Detection>, i: nat)
    requires s.Shape() && i < |s.tracks|
    ensures Fate(num, s, detections, i).Some?
       <==> HighMatch(num, s, detections)[i] != FREE || LowMatch(num, s, detections)[i] != FREE
  {
    hide HighMatch, LowMatch;
  }

  lemma UnionOfMatches(rows: set<int>, k1: seq<int>, k2: seq<int>)
    requires |k1| == |k2| && forall i | 0 <= i < |k1| :: k1[i] == FREE || k2[i] == FREE
    requires forall i :: i in rows <==> 0 <= i < |k1| && (k1[i] != FREE || k2[i] != FREE)
    ensures |rows| == Size(k1) + Size(k2)
  {
    assert rows == AssignedRows(k1) + AssignedRows(k2);
    assert AssignedRows(k1) !! AssignedRows(k2);
    RowCount(k1);
    RowCount(k2);
  }

  /** Tracks with a detection are those of stage 1 and those of stage 2, with no overlap. */
  lemma HitRowCount(num: Numerics, s: Tracker, detections: seq<Detection>)
    requires s.Shape()
    ensures |HitRows(num, s, detections)| == Size(HighMatch(num, s, detections)) + Size(LowMatch(num, s, detections))
  {
    LowMatchIsPartial(num, s, detections);
    hide *;
    var rows := HitRows(num, s, detections);
    forall i
      ensures i in rows <==> 0 <= i < |s.tracks|
                             && (HighMatch(num, s, detections)[i] != FREE || LowMatch(num, s, detections)[i] != FREE)
    {
      if 0 <= i < |s.tracks| {
        FateFromMatches(num, s, detections, i);
      }
    }
    UnionOfMatches(rows, HighMatch(num, s, detections), LowMatch(num, s, detections));
  }

  lemma LeftoverCount(num: Numerics, s: Tracker, detections: seq<Detection>)
    requires s.Shape()
    ensures |Leftover(num, s, detections)| + Size(HighMatch(num, s, detections)) == |HighOf(detections)|
  {
    var k, m := HighMatch(num, s, detections), |HighOf(detections)|;
    hide HighMatch, HighOf;
    PartialPartitions(k, |s.tracks|, m);
    PairCountIsSize(k, |k|);
    assert k[..|k|] == k;
  }

  lemma SettledHits(num: Numerics, s: Tracker, detections: seq<Detection>)
    requires s.Shape()
    ensures SumHits(SettledTracks(num, s, detections)) == SumHits(s.tracks) + |HitRows(num, s, detections)|
  {
    hide Fate, SumHits;
    var rows, us := HitRows(num, s, detections), SettledTracks(num, s, detections);
    forall i | 0 <= i < |us|
      ensures us[i].life.hits == s.tracks[i].life.hits + if i in rows then 1 else 0
    {
      SettledLife(num, s, detections, i);
    }
    GrownHits(s.tracks, us, rows, |us|);
    assert us[..|us|] == us && s.tracks[..|us|] == s.tracks;
    assert RowsBelow(rows, |us|) == rows;
  }

  /** One frame adds one hit per accepted detection to the counters, whether it updates a track or starts one. */
  lemma FrameConservesHits(num: Numerics, s: Tracker, detections: seq<Detection>)
    requires s.Shape()
    ensures SumHits(ThreeStages(num, s, detections).tracks) + SumHits(DroppedOf(FrameTracks(num, s, detections)))
         == SumHits(s.tracks) + AcceptedInFrame(num, s, detections)
  {
    var settled, left := SettledTracks(num, s, detections), Leftover(num, s, detections);
    var spawned := SpawnAll(s.cameraId, s.counter, left);
    hide ThreeStages, FrameTracks, SettledTracks, Leftover, HitRows, HighMatch, LowMatch, Size, HighOf, Survivors,
      SumHits;
    FrameTracksAgree(num, s, detections);
    CleanUpSplits(FrameTracks(num, s, detections));
    SumHitsAppend(settled, spawned);
    SettledHits(num, s, detections);
    HitRowCount(num, s, detections);
    LeftoverCount(num, s, detections);
    NewcomerHits(spawned);
  }

  /** Over any run, the hit counters of the live tracks and of the deleted ones add up to the detections accepted. */
  lemma {:induction false} HitsAreConserved(num: Numerics, cameraId: string, frames: seq<seq<Detection>>)
    ensures SumHits(PlainRun(num, cameraId, frames).tracks) + SumHits(DroppedInRun(num, cameraId, frames))
         == Accepted(num, cameraId, frames)
  {
    hide ThreeStages, AcceptedInFrame, FrameTracks, DroppedOf, SumHits;
    if frames == [] {
      NoHits();
    } else {
      var before, last := frames[..|frames| - 1], frames[|frames| - 1];
      HitsAreConserved(num, cameraId, before);
      FrameConservesHits(num, PlainRun(num, cameraId, before), last);
      SumHitsAppend(DroppedInRun(num, cameraId, before),
                    DroppedOf(FrameTracks(num, PlainRun(num, cameraId, before), last)));
    }
  }

  lemma {:induction false} HitsOfOneMore(h: History, hit: bool)
    ensures Hits(h + [hit]) == Hits(h) + (if hit then 1 else 0)
  {
    assert (h + [hit])[..|h + [hit]| - 1] == h;
  }

  lemma ConsistentShape(log: Logged)
    requires Consistent(log)
    ensures log.tracker.Shape() && |log.serials| == |log.tracker.tracks|
  {
  }

  lemma LiveCounter(log: Logged, i: nat)
    requires Consistent(log) && i < |log.serials|
    ensures 1 <= log.serials[i] <= |log.histories|
    ensures Hits(log.histories[log.serials[i] - 1]) == log.tracker.tracks[i].life.hits
  {
    hide LifeAfter, Hits, Held, TrailingMisses;
    assert LiveTrack(log, i);
    LifeAgreesWithHistory(log.histories[log.serials[i] - 1]);
  }

  lemma NextHits(l: Life, hit: bool)
    ensures NextLife(l, hit).hits == l.hits + if hit then 1 else 0
  {
  }

  lemma SettledCounter(num: Numerics, log: Logged, detections: seq<Detection>, i: nat)
    requires Consistent(log) && i < |log.serials|
    ensures var c, hs := log.serials[i], LogFrame(num, log, detections).histories;
            && log.tracker.Shape() && |log.serials| == |log.tracker.tracks|
            && 1 <= c <= |hs| && SettledTracks(num, log.tracker, detections)[i].life.hits == Hits(hs[c - 1])
  {
    hide *;
    ConsistentShape(log);
    LiveCounter(log, i);
    var c, hit := log.serials[i], Fate(num, log.tracker, detections, i).Some?;
    SettledLife(num, log.tracker, detections, i);
    NextHits(log.tracker.tracks[i].life, hit);
    HitIffFate(num, log, detections, i);
    HistoryGrows(num, log, detections, c - 1);
    HitsOfOneMore(log.histories[c - 1], hit);
  }

  lemma NewcomerCounter(num: Numerics, log: Logged, detections: seq<Detection>, j: nat)
    requires Consistent(log) && j < |Leftover(num, log.tracker, detections)|
    ensures var c, hs := log.tracker.counter + 1 + j, LogFrame(num, log, detections).histories;
            1 <= c <= |hs| && Hits(hs[c - 1]) == 1
  {
    hide Fate, WasHit, TwoStages, BeforeCleanUp, Leftover;
    assert LogFrame(num, log, detections).histories[log.tracker.counter + j] == [true];
    assert [true][..0] == [];
  }

  lemma PendingId(log: Logged, next: Logged, t: TrackRecord, c: nat)
    requires PendingRow(log, next, t, c)
    ensures 1 <= c <= |next.histories| && t.trackId == TrackIds.Format(log.tracker.cameraId, c)
  {
    hide LifeAfter;
  }

  /** Before the clean-up: the settled tracks with their numbers, then the newcomers with theirs. */
  lemma RowsOfFrame(num: Numerics, log: Logged, detections: seq<Detection>, r: nat)
    requires Consistent(log) && r < |BeforeCleanUp(num, log.tracker, detections)|
    ensures var all, cs := BeforeCleanUp(num, log.tracker, detections), AllSerials(num, log, detections);
            var n := |log.serials|;
            && |cs| == |all| && n == |SettledTracks(num, log.tracker, detections)|
            && (r < n ==> cs[r] == log.serials[r] && all[r] == SettledTracks(num, log.tracker, detections)[r])
            && (r >= n ==> && r - n < |Leftover(num, log.tracker, detections)|
                           && cs[r] == log.tracker.counter + 1 + (r - n) && all[r].life.hits == 1)
  {
    hide Leftover, SettledTracks, LiveTrack, Started, LifeAfter;
  }

  /** A track's counter before the clean-up is the number of hits in its history, whether or not it is then deleted. */
  lemma CountersAreHits(num: Numerics, log: Logged, detections: seq<Detection>, r: nat)
    requires Consistent(log) && r < |FrameTracks(num, log.tracker, detections)|
    ensures var all, cs, hs := FrameTracks(num, log.tracker, detections), AllSerials(num, log, detections),
                               LogFrame(num, log, detections).histories;
            && |cs| == |all| && 1 <= cs[r] <= |hs|
            && all[r].trackId == TrackIds.Format(log.tracker.cameraId, cs[r])
            && all[r].life.hits == Hits(hs[cs[r] - 1])
  {
    hide *;
    ConsistentShape(log);
    FrameTracksAgree(num, log.tracker, detections);
    AnyRow(num, log, detections, r);
    PendingId(log, LogFrame(num, log, detections), FrameTracks(num, log.tracker, detections)[r],
              AllSerials(num, log, detections)[r]);
    RowsOfFrame(num, log, detections, r);
    if r < |log.serials| {
      SettledCounter(num, log, detections, r);
    } else {
      NewcomerCounter(num, log, detections, r - |log.serials|);
    }
  }
}
