// Whole runs of one tracker, with the match history of every track it ever created.

module TrackerRuns {
  import opened Wrappers
  import opened Collections
  import opened Tracks
  import opened Trackers
  import opened Frames
  import opened Lifecycle
  import StageThreeIdle
  import TrackIds

  /** The code's run: a new tracker updated with each frame's detections in turn. */
  function PlainRun(num: Numerics, cameraId: string, frames: seq<seq<Detection>>): (s: Tracker)
    ensures s.Shape() && s.cameraId == cameraId
  {
    if frames == [] then NewTracker(cameraId)
    else ThreeStages(num, PlainRun(num, cameraId, frames[..|frames| - 1]), frames[|frames| - 1])
  }

  /**
   * A tracker with its past: serials[i] is the counter value behind live track i's id, and histories[c - 1] is the
   * match history of the track created with counter c, live or dropped.
   */
  datatype Logged = Logged(tracker: Tracker, serials: seq<nat>, histories: seq<History>)

  /** All tracks of a frame before the clean-up: the settled ones, then the newcomers. */
  function BeforeCleanUp(num: Numerics, s: Tracker, detections: seq<Detection>): (ts: seq<TrackRecord>)
    requires s.Shape()
    ensures AllShaped(ts)
  {
    SettledTracks(num, s, detections) + SpawnAll(s.cameraId, s.counter, Leftover(num, s, detections))
  }

  predicate WasHit(num: Numerics, log: Logged, detections: seq<Detection>, c: nat)
    requires log.tracker.Shape() && |log.serials| == |log.tracker.tracks|
  {
    exists i :: 0 <= i < |log.serials| && log.serials[i] == c && Fate(num, log.tracker, detections, i).Some?
  }

  /** The counter values of all tracks of a frame before the clean-up. */
  function AllSerials(num: Numerics, log: Logged, detections: seq<Detection>): seq<nat>
    requires log.tracker.Shape()
  {
    log.serials + Span(log.tracker.counter + 1, log.tracker.counter + 1 + |Leftover(num, log.tracker, detections)|)
  }

  function LogFrame(num: Numerics, log: Logged, detections: seq<Detection>): (next: Logged)
    requires log.tracker.Shape() && |log.serials| == |log.tracker.tracks|
    ensures next.tracker.Shape() && |next.serials| == |next.tracker.tracks|
  {
    var s := log.tracker;
    var newcomers := |Leftover(num, s, detections)|;
    var all := BeforeCleanUp(num, s, detections);
    var kept := AliveRows(all);
    SurvivorsArePicked(all);
    Logged(TwoStages(num, s, detections),
           Pick(AllSerials(num, log, detections), kept),
           seq(|log.histories|, c requires 0 <= c < |log.histories| =>
             log.histories[c] + [WasHit(num, log, detections, c + 1)])
           + seq(newcomers, i => [true]))
  }

  function LoggedRun(num: Numerics, cameraId: string, frames: seq<seq<Detection>>): (log: Logged)
    ensures log.tracker.Shape() && |log.serials| == |log.tracker.tracks|
  {
    if frames == [] then Logged(NewTracker(cameraId), [], [])
    else LogFrame(num, LoggedRun(num, cameraId, frames[..|frames| - 1]), frames[|frames| - 1])
  }

  /** Keeping the log does not change the tracker. */
  lemma {:induction false} LoggedRunIsPlain(num: Numerics, cameraId: string, frames: seq<seq<Detection>>)
    ensures LoggedRun(num, cameraId, frames).tracker == PlainRun(num, cameraId, frames)
  {
    if frames != [] {
      var before := frames[..|frames| - 1];
      LoggedRunIsPlain(num, cameraId, before);
      StageThreeIdle.ThreeStagesAreTwo(num, PlainRun(num, cameraId, before), frames[|frames| - 1]);
      hide ThreeStages, TwoStages;
    }
  }

  // ---- The invariant of every run ----

  predicate LiveTrack(log: Logged, i: nat)
    requires |log.serials| == |log.tracker.tracks| && i < |log.serials|
  {
    var t, c := log.tracker.tracks[i], log.serials[i];
    && 1 <= c <= |log.histories|
    && t.trackId == TrackIds.Format(log.tracker.cameraId, c)
    && LifeAfter(log.histories[c - 1]) == Some(t.life)
  }

  /** Every live track has a number, and numbers rise with creation. */
  predicate InStep(log: Logged) {
    && log.tracker.Shape()
    && |log.serials| == |log.tracker.tracks|
    && |log.histories| == log.tracker.counter
    && Ascending(log.serials)
  }

  /** Live tracks carry the counters of their history, in order of creation; all others are dropped for good. */
  predicate Consistent(log: Logged) {
    && InStep(log)
    && (forall c | 0 <= c < |log.histories| :: Started(log.histories[c]))
    && (forall i | 0 <= i < |log.serials| :: LiveTrack(log, i))
    && (forall c: nat | c < |log.histories| && c + 1 !in log.serials :: LifeAfter(log.histories[c]).None?)
  }

  lemma HitIffFate(num: Numerics, log: Logged, detections: seq<Detection>, i: nat)
    requires Consistent(log) && i < |log.serials|
    ensures WasHit(num, log, detections, log.serials[i]) <==> Fate(num, log.tracker, detections, i).Some?
  {
    hide Fate, LiveTrack;
  }

  lemma LifeAfterOneMore(h: History, hit: bool)
    requires Started(h)
    ensures Started(h + [hit])
    ensures LifeAfter(h + [hit]) == match LifeAfter(h) case None => None case Some(l) => FrameLife(l, hit)
  {
    var g := h + [hit];
    assert g[..|g| - 1] == h;
  }

  /** Before the clean-up, row r of the frame is the track with counter value c. */
  predicate PendingRow(log: Logged, next: Logged, t: TrackRecord, c: nat) {
    && 1 <= c <= |next.histories|
    && t.trackId == TrackIds.Format(log.tracker.cameraId, c)
    && LifeAfter(next.histories[c - 1]) == if Dropped(t.life) then None else Some(t.life)
  }

  lemma SettledLife(num: Numerics, s: Tracker, detections: seq<Detection>, i: nat)
    requires s.Shape() && i < |s.tracks|
    ensures var t := SettledTracks(num, s, detections)[i];
            && t.life == NextLife(s.tracks[i].life, Fate(num, s, detections, i).Some?)
            && t.trackId == s.tracks[i].trackId
  {
    hide Fate, SettledTracks, HitLife, MissLife;
  }

  lemma HistoryGrows(num: Numerics, log: Logged, detections: seq<Detection>, c: nat)
    requires log.tracker.Shape() && |log.serials| == |log.tracker.tracks| && c < |log.histories|
    ensures var next := LogFrame(num, log, detections);
            |next.histories| == |log.histories| + |Leftover(num, log.tracker, detections)|
            && next.histories[c] == log.histories[c] + [WasHit(num, log, detections, c + 1)]
  {
    hide Fate, WasHit, TwoStages, BeforeCleanUp, Leftover;
  }

  lemma ExtendedHistory(log: Logged, next: Logged, t: TrackRecord, u: TrackRecord, c: nat, hit: bool)
    requires 1 <= c <= |log.histories| <= |next.histories| && Started(log.histories[c - 1])
    requires LifeAfter(log.histories[c - 1]) == Some(t.life)
    requires t.trackId == TrackIds.Format(log.tracker.cameraId, c)
    requires u.life == NextLife(t.life, hit) && u.trackId == t.trackId
    requires next.histories[c - 1] == log.histories[c - 1] + [hit]
    ensures PendingRow(log, next, u, c)
  {
    LifeAfterOneMore(log.histories[c - 1], hit);
    hide LifeAfter, NextLife;
  }

  lemma LiveParts(log: Logged, i: nat)
    requires Consistent(log) && i < |log.serials|
    ensures log.tracker.Shape() && |log.serials| == |log.tracker.tracks|
    ensures 1 <= log.serials[i] <= |log.histories| && Started(log.histories[log.serials[i] - 1])
    ensures LifeAfter(log.histories[log.serials[i] - 1]) == Some(log.tracker.tracks[i].life)
    ensures log.tracker.tracks[i].trackId == TrackIds.Format(log.tracker.cameraId, log.serials[i])
  {
    assert LiveTrack(log, i);
    hide LifeAfter;
  }

  lemma SettledRow(num: Numerics, log: Logged, detections: seq<Detection>, i: nat)
    requires Consistent(log) && i < |log.serials|
    ensures PendingRow(log, LogFrame(num, log, detections), SettledTracks(num, log.tracker, detections)[i],
                       log.serials[i])
  {
    hide *;
    LiveParts(log, i);
    var c, t := log.serials[i], log.tracker.tracks[i];
    SettledLife(num, log.tracker, detections, i);
    HitIffFate(num, log, detections, i);
    HistoryGrows(num, log, detections, c - 1);
    ExtendedHistory(log, LogFrame(num, log, detections), t, SettledTracks(num, log.tracker, detections)[i], c,
                    Fate(num, log.tracker, detections, i).Some?);
  }

  lemma NewcomerRow(num: Numerics, log: Logged, detections: seq<Detection>, j: nat)
    requires Consistent(log) && j < |Leftover(num, log.tracker, detections)|
    ensures var s := log.tracker;
            PendingRow(log, LogFrame(num, log, detections),
                       SpawnAll(s.cameraId, s.counter, Leftover(num, s, detections))[j], s.counter + 1 + j)
  {
    hide Fate, WasHit, TwoStages, BeforeCleanUp, Leftover;
    assert LogFrame(num, log, detections).histories[log.tracker.counter + j] == [true];
  }

  /** Row r of the frame before the clean-up, settled or new. */
  lemma AnyRow(num: Numerics, log: Logged, detections: seq<Detection>, r: nat)
    requires Consistent(log) && r < |BeforeCleanUp(num, log.tracker, detections)|
    ensures var all, cs := BeforeCleanUp(num, log.tracker, detections), AllSerials(num, log, detections);
            |cs| == |all| && PendingRow(log, LogFrame(num, log, detections), all[r], cs[r])
  {
    var n := |log.serials|;
    hide PendingRow, LogFrame, Leftover, SettledTracks, Fate;
    if r < n {
      SettledRow(num, log, detections, r);
    } else {
      NewcomerRow(num, log, detections, r - n);
    }
  }

  lemma SerialsAscend(log: Logged, k: nat)
    requires Consistent(log)
    ensures Ascending(log.serials + Span(log.tracker.counter + 1, log.tracker.counter + 1 + k))
    ensures forall c: nat
              | 1 <= c <= log.tracker.counter + k
                && c !in log.serials + Span(log.tracker.counter + 1, log.tracker.counter + 1 + k) ::
              c <= log.tracker.counter && c !in log.serials
  {
    forall i | 0 <= i < |log.serials|
      ensures log.serials[i] <= log.tracker.counter
    {
      assert LiveTrack(log, i);
    }
    var cs := log.serials + Span(log.tracker.counter + 1, log.tracker.counter + 1 + k);
    forall c: nat | log.tracker.counter < c <= log.tracker.counter + k
      ensures c in cs
    {
      assert cs[|log.serials| + c - log.tracker.counter - 1] == c;
    }
  }

  lemma PickAscends(s: seq<nat>, rows: seq<nat>)
    requires Ascending(s) && Ascending(rows) && Within(rows, |s|)
    ensures Ascending(Pick(s, rows))
  {
  }

  /** What LogFrame returns, part by part. */
  lemma LogFrameParts(num: Numerics, log: Logged, detections: seq<Detection>)
    requires log.tracker.Shape() && |log.serials| == |log.tracker.tracks|
    ensures var s, next := log.tracker, LogFrame(num, log, detections);
            var all, cs := BeforeCleanUp(num, s, detections), AllSerials(num, log, detections);
            && |cs| == |all|
            && next.serials == Pick(cs, AliveRows(all))
            && next.tracker.tracks == Pick(all, AliveRows(all))
            && next.tracker.cameraId == s.cameraId
            && next.tracker.counter == s.counter + |Leftover(num, s, detections)|
            && |next.histories| == |log.histories| + |Leftover(num, s, detections)|
  {
    SurvivorsArePicked(BeforeCleanUp(num, log.tracker, detections));
    hide Leftover, SettledTracks, WasHit, AliveRows, Survivors;
  }

  lemma NextParts(num: Numerics, log: Logged, detections: seq<Detection>)
    requires Consistent(log)
    ensures var s, next := log.tracker, LogFrame(num, log, detections);
            var all, cs := BeforeCleanUp(num, s, detections), AllSerials(num, log, detections);
            && |cs| == |all|
            && next.serials == Pick(cs, AliveRows(all))
            && next.tracker.tracks == Pick(all, AliveRows(all))
            && next.tracker.cameraId == s.cameraId
  {
    hide LogFrame, BeforeCleanUp, AllSerials, AliveRows, Leftover;
    LogFrameParts(num, log, detections);
  }

  lemma PendingIsLive(log: Logged, next: Logged, t: TrackRecord, c: nat, i: nat)
    requires PendingRow(log, next, t, c) && !Dropped(t.life) && next.tracker.cameraId == log.tracker.cameraId
    requires i < |next.serials| == |next.tracker.tracks| && next.serials[i] == c && next.tracker.tracks[i] == t
    ensures LiveTrack(next, i)
  {
    hide LifeAfter;
  }

  lemma KeptRow(num: Numerics, log: Logged, detections: seq<Detection>, i: nat)
    requires Consistent(log) && i < |LogFrame(num, log, detections).serials|
    ensures LiveTrack(LogFrame(num, log, detections), i)
  {
    var next := LogFrame(num, log, detections);
    var all, cs := BeforeCleanUp(num, log.tracker, detections), AllSerials(num, log, detections);
    var kept := AliveRows(all);
    LogFrameParts(num, log, detections);
    hide *;
    assert kept[i] in kept;
    AnyRow(num, log, detections, kept[i]);
    PendingIsLive(log, next, all[kept[i]], cs[kept[i]], i);
  }

  lemma PendingIsDropped(log: Logged, next: Logged, all: seq<TrackRecord>, cs: seq<nat>, kept: seq<nat>, r: nat)
    requires |cs| == |all| && Within(kept, |all|) && r < |all| && cs[r] !in Pick(cs, kept)
    requires forall i: nat :: i in kept <==> i < |all| && !Dropped(all[i].life)
    requires PendingRow(log, next, all[r], cs[r])
    ensures 1 <= cs[r] <= |next.histories| && LifeAfter(next.histories[cs[r] - 1]).None?
  {
    hide LifeAfter, Dropped;
  }

  lemma GoneBefore(num: Numerics, log: Logged, detections: seq<Detection>, c: nat)
    requires Consistent(log) && c < |LogFrame(num, log, detections).histories|
    requires c + 1 !in AllSerials(num, log, detections)
    ensures LifeAfter(LogFrame(num, log, detections).histories[c]).None?
  {
    LogFrameParts(num, log, detections);
    SerialsAscend(log, |Leftover(num, log.tracker, detections)|);
    hide LogFrame, Leftover, LifeAfter, WasHit;
    HistoryGrows(num, log, detections, c);
    LifeAfterOneMore(log.histories[c], WasHit(num, log, detections, c + 1));
  }

  lemma GoneForGood(num: Numerics, log: Logged, detections: seq<Detection>, c: nat)
    requires Consistent(log)
    ensures var next := LogFrame(num, log, detections);
            c < |next.histories| && c + 1 !in next.serials ==> LifeAfter(next.histories[c]).None?
  {
    hide LogFrame, BeforeCleanUp, AllSerials, AliveRows, Leftover, Started, LiveTrack, LifeAfter, Ascending;
    var next := LogFrame(num, log, detections);
    var all, cs := BeforeCleanUp(num, log.tracker, detections), AllSerials(num, log, detections);
    NextParts(num, log, detections);
    if c < |next.histories| && c + 1 !in next.serials {
      if r: nat :| r < |cs| && cs[r] == c + 1 {
        AnyRow(num, log, detections, r);
        PendingIsDropped(log, next, all, cs, AliveRows(all), r);
      } else {
        GoneBefore(num, log, detections, c);
      }
    }
  }

  lemma HistoriesStart(num: Numerics, log: Logged, detections: seq<Detection>)
    requires Consistent(log)
    ensures forall c | 0 <= c < |LogFrame(num, log, detections).histories| ::
              Started(LogFrame(num, log, detections).histories[c])
  {
    hide Leftover, WasHit, TwoStages, BeforeCleanUp, AllSerials;
  }

  /** The tracks of the next frame and their numbers are in step, and the numbers rise. */
  lemma NextInStep(num: Numerics, log: Logged, detections: seq<Detection>)
    requires Consistent(log)
    ensures InStep(LogFrame(num, log, detections))
  {
    LogFrameParts(num, log, detections);
    SerialsAscend(log, |Leftover(num, log.tracker, detections)|);
    PickAscends(AllSerials(num, log, detections), AliveRows(BeforeCleanUp(num, log.tracker, detections)));
    hide LogFrame, Leftover, LifeAfter, WasHit, LiveTrack, BeforeCleanUp, TwoStages, Started, AllSerials, AliveRows;
  }

  /** Every frame keeps the invariant. */
  lemma FrameKeepsConsistent(num: Numerics, log: Logged, detections: seq<Detection>)
    requires Consistent(log)
    ensures Consistent(LogFrame(num, log, detections))
  {
    hide LogFrame, LifeAfter, LiveTrack, Started, Ascending;
    var next := LogFrame(num, log, detections);
    NextInStep(num, log, detections);
    HistoriesStart(num, log, detections);
    forall i | 0 <= i < |next.serials|
      ensures LiveTrack(next, i)
    {
      KeptRow(num, log, detections, i);
    }
    forall c: nat | c < |next.histories| && c + 1 !in next.serials
      ensures LifeAfter(next.histories[c]).None?
    {
      GoneForGood(num, log, detections, c);
    }
  }

  lemma {:induction false} RunIsConsistent(num: Numerics, cameraId: string, frames: seq<seq<Detection>>)
    ensures Consistent(LoggedRun(num, cameraId, frames))
  {
    if frames != [] {
      RunIsConsistent(num, cameraId, frames[..|frames| - 1]);
      FrameKeepsConsistent(num, LoggedRun(num, cameraId, frames[..|frames| - 1]), frames[|frames| - 1]);
    }
  }

  // ---- Consequences for every run ----

  /** Track number c is live after a run exactly when its history is held. */
  lemma LiveIffHeld(num: Numerics, cameraId: string, frames: seq<seq<Detection>>, c: nat)
    requires 1 <= c <= LoggedRun(num, cameraId, frames).tracker.counter
    ensures var log := LoggedRun(num, cameraId, frames);
            |log.histories| == log.tracker.counter && (c in log.serials <==> Held(log.histories[c - 1]))
  {
    var log := LoggedRun(num, cameraId, frames);
    RunIsConsistent(num, cameraId, frames);
    hide LoggedRun, LifeAfter, Held;
    LifeAgreesWithHistory(log.histories[c - 1]);
    if c in log.serials {
      var i :| 0 <= i < |log.serials| && log.serials[i] == c;
      assert LiveTrack(log, i);
    }
  }

  /** The counters and the state of a live track are those of its history. */
  lemma LiveCounters(num: Numerics, cameraId: string, frames: seq<seq<Detection>>, i: nat)
    requires i < |PlainRun(num, cameraId, frames).tracks|
    ensures var log, s := LoggedRun(num, cameraId, frames), PlainRun(num, cameraId, frames);
            && i < |log.serials| && 1 <= log.serials[i] <= |log.histories| == s.counter
            && var h := log.histories[log.serials[i] - 1];
            && s.tracks[i].trackId == TrackIds.Format(cameraId, log.serials[i])
            && s.tracks[i].life == Life(StateOf(Hits(h), TrailingMisses(h)), Hits(h), |h|, TrailingMisses(h))
            && s.tracks[i].life.sinceUpdate <= 30
            && s.tracks[i].life.hits + s.tracks[i].life.sinceUpdate <= s.tracks[i].life.age
  {
    var log := LoggedRun(num, cameraId, frames);
    RunIsConsistent(num, cameraId, frames);
    LoggedRunIsPlain(num, cameraId, frames);
    hide LoggedRun, PlainRun, LifeAfter, Held;
    assert LiveTrack(log, i);
    LifeAgreesWithHistory(log.histories[log.serials[i] - 1]);
  }

  lemma SameSerial(s: seq<nat>, i: nat, j: nat)
    requires Ascending(s) && i < |s| && j < |s| && s[i] == s[j]
    ensures i == j
  {
  }

  /** Different live tracks have different ids. */
  lemma LiveIdsDiffer(num: Numerics, cameraId: string, frames: seq<seq<Detection>>, i: nat, j: nat)
    requires i < |PlainRun(num, cameraId, frames).tracks| && j < |PlainRun(num, cameraId, frames).tracks| && i != j
    ensures PlainRun(num, cameraId, frames).tracks[i].trackId != PlainRun(num, cameraId, frames).tracks[j].trackId
  {
    var log := LoggedRun(num, cameraId, frames);
    RunIsConsistent(num, cameraId, frames);
    assert Ascending(log.serials);
    hide *;
    LiveCounters(num, cameraId, frames, i);
    LiveCounters(num, cameraId, frames, j);
    if PlainRun(num, cameraId, frames).tracks[i].trackId == PlainRun(num, cameraId, frames).tracks[j].trackId {
      TrackIds.FormatInjective(cameraId, log.serials[i], cameraId, log.serials[j]);
      SameSerial(log.serials, i, j);
    }
  }

  /** Ids are never reused: a track created now differs from every track created so far, live or dropped. */
  lemma NewIdsAreNew(num: Numerics, cameraId: string, frames: seq<seq<Detection>>, detections: seq<Detection>,
                     c: nat, j: nat)
    requires var s := PlainRun(num, cameraId, frames); 1 <= c <= s.counter && j < |Leftover(num, s, detections)|
    ensures var s := PlainRun(num, cameraId, frames);
            SpawnAll(cameraId, s.counter, Leftover(num, s, detections))[j].trackId != TrackIds.Format(cameraId, c)
  {
    var s := PlainRun(num, cameraId, frames);
    hide PlainRun, Leftover;
    if TrackIds.Format(cameraId, s.counter + j + 1) == TrackIds.Format(cameraId, c) {
      TrackIds.FormatInjective(cameraId, s.counter + j + 1, cameraId, c);
    }
  }

  // ---- Frames without detections ----

  lemma NothingToFate(num: Numerics, s: Tracker, i: nat)
    requires s.Shape() && i < |s.tracks|
    ensures Fate(num, s, [], i) == None && Leftover(num, s, []) == []
  {
    LowMatchIsPartial(num, s, []);
    hide LowMatch, HighMatch;
  }

  function EmptyFrames(k: nat): (frames: seq<seq<Detection>>)
    ensures |frames| == k && forall i | 0 <= i < k :: frames[i] == []
  {
    seq(k, i => [])
  }

  /** From log to next no track was created and every history grew by k misses. */
  predicate OnlyMissed(log: Logged, next: Logged, k: nat) {
    && next.tracker.counter == log.tracker.counter
    && |next.histories| == |log.histories|
    && forall c | 0 <= c < |log.histories| :: next.histories[c] == log.histories[c] + Misses(k)
  }

  lemma MissesCompose(log: Logged, mid: Logged, next: Logged, k: nat)
    requires OnlyMissed(log, mid, k) && OnlyMissed(mid, next, 1)
    ensures OnlyMissed(log, next, k + 1)
  {
    assert Misses(k + 1) == Misses(k) + Misses(1);
  }

  lemma NoMissesYet(log: Logged)
    ensures OnlyMissed(log, log, 0)
  {
    forall c | 0 <= c < |log.histories|
      ensures log.histories[c] == log.histories[c] + Misses(0)
    {
    }
  }

  lemma NobodyHit(num: Numerics, log: Logged, c: nat)
    requires log.tracker.Shape() && |log.serials| == |log.tracker.tracks|
    ensures !WasHit(num, log, [], c)
  {
    forall i | 0 <= i < |log.serials|
      ensures Fate(num, log.tracker, [], i).None?
    {
      NothingToFate(num, log.tracker, i);
    }
    hide Fate;
  }

  lemma NoLeftovers(num: Numerics, s: Tracker)
    requires s.Shape()
    ensures Leftover(num, s, []) == []
  {
  }

  lemma OneEmptyFrame(num: Numerics, log: Logged)
    requires log.tracker.Shape() && |log.serials| == |log.tracker.tracks|
    ensures OnlyMissed(log, LogFrame(num, log, []), 1)
  {
    LogFrameParts(num, log, []);
    NoLeftovers(num, log.tracker);
    hide LogFrame, Leftover;
    forall c | 0 <= c < |log.histories|
      ensures LogFrame(num, log, []).histories[c] == log.histories[c] + Misses(1)
    {
      HistoryGrows(num, log, [], c);
      NobodyHit(num, log, c + 1);
    }
  }

  lemma {:induction false} EmptyFramesOnlyMiss(num: Numerics, cameraId: string, frames: seq<seq<Detection>>, k: nat)
    ensures OnlyMissed(LoggedRun(num, cameraId, frames), LoggedRun(num, cameraId, frames + EmptyFrames(k)), k)
  {
    hide OnlyMissed, LogFrame;
    var all, log := frames + EmptyFrames(k), LoggedRun(num, cameraId, frames);
    if k == 0 {
      assert all == frames;
      NoMissesYet(log);
    } else {
      EmptyFramesOnlyMiss(num, cameraId, frames, k - 1);
      assert all[..|all| - 1] == frames + EmptyFrames(k - 1);
      var before := LoggedRun(num, cameraId, frames + EmptyFrames(k - 1));
      OneEmptyFrame(num, before);
      MissesCompose(log, before, LogFrame(num, before, []), k - 1);
    }
  }

  /** Track c is live with three hits and can miss k more frames. */
  predicate CanMiss(log: Logged, c: nat, k: nat)
    requires 1 <= c <= |log.histories|
  {
    && c in log.serials
    && Hits(log.histories[c - 1]) >= 3
    && TrailingMisses(log.histories[c - 1]) + k <= 30
  }

  lemma {:induction false} HeldBeforeMisses(h: History, k: nat)
    requires Started(h)
    ensures Held(h + Misses(k)) ==> Held(h)
  {
    if k > 0 {
      assert h + Misses(k) == (h + Misses(k - 1)) + [false];
      if Held(h + Misses(k)) {
        HeldIsPrefixClosed(h + Misses(k - 1), false);
      }
      HeldBeforeMisses(h, k - 1);
    } else {
      assert h + Misses(0) == h;
    }
    hide Held;
  }

  /** After k > 0 empty frames exactly the tracks with three hits and sinceUpdate + k <= 30 are live. */
  lemma AfterEmptyFrames(num: Numerics, cameraId: string, frames: seq<seq<Detection>>, k: nat, d: nat)
    requires k > 0 && 1 <= d <= |LoggedRun(num, cameraId, frames).histories|
    ensures var log, next := LoggedRun(num, cameraId, frames), LoggedRun(num, cameraId, frames + EmptyFrames(k));
            d in next.serials <==> CanMiss(log, d, k)
  {
    var log := LoggedRun(num, cameraId, frames);
    EmptyFramesOnlyMiss(num, cameraId, frames, k);
    RunIsConsistent(num, cameraId, frames);
    RunIsConsistent(num, cameraId, frames + EmptyFrames(k));
    LiveIffHeld(num, cameraId, frames, d);
    LiveIffHeld(num, cameraId, frames + EmptyFrames(k), d);
    hide LoggedRun, Hits, TrailingMisses, Held;
    HeldBeforeMisses(log.histories[d - 1], k);
    if Held(log.histories[d - 1]) {
      SurvivesMisses(log.histories[d - 1], k);
    }
  }

  /** No track is left after 31 frames without detections. */
  lemma NoneAfterLongGap(num: Numerics, cameraId: string, frames: seq<seq<Detection>>, k: nat)
    requires k >= 31
    ensures PlainRun(num, cameraId, frames + EmptyFrames(k)).tracks == []
  {
    var log, next := LoggedRun(num, cameraId, frames), LoggedRun(num, cameraId, frames + EmptyFrames(k));
    LoggedRunIsPlain(num, cameraId, frames + EmptyFrames(k));
    RunIsConsistent(num, cameraId, frames + EmptyFrames(k));
    EmptyFramesOnlyMiss(num, cameraId, frames, k);
    hide LoggedRun, PlainRun, Hits, TrailingMisses, LifeAfter;
    if next.serials != [] {
      assert LiveTrack(next, 0);
      var c := next.serials[0];
      AfterEmptyFrames(num, cameraId, frames, k, c);
    }
  }
}
