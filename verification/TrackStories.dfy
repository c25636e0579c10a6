// What a live track is made of: its creating detection and, per frame since, the detection that updated it or none.

module TrackStories {
  import opened Wrappers
  import opened BoxFilters
  import opened Matching
  import opened Tracks
  import opened Trackers
  import opened Frames
  import opened Lifecycle
  import opened TrackerRuns
  import StageThreeIdle
  import TrackIds
  import DenseFilter

  /** The creating detection, and per later frame the detection that updated the track, if any. */
  datatype Story = Story(first: Detection, later: seq<Option<Detection>>)

  /** What one frame does to the filter: predict, then take in the detection if there is one. */
  function FrameSteps(d: Option<Detection>): seq<Step> {
    match d
    case None => [Predicted]
    case Some(detection) => [Predicted, Measured(detection.box)]
  }

  function Steps(later: seq<Option<Detection>>): seq<Step> {
    if later == [] then [] else Steps(later[..|later| - 1]) + FrameSteps(later[|later| - 1])
  }

  /** The latest detection of a story. */
  function Latest(story: Story): Detection
    decreases |story.later|
  {
    if story.later == [] then story.first
    else
      match story.later[|story.later| - 1]
      case Some(d) => d
      case None => Latest(Story(story.first, story.later[..|story.later| - 1]))
  }

  /** Which frames of a story had a detection. */
  function HitsOf(story: Story): (h: History)
    ensures |h| == |story.later| + 1 && h[0]
    ensures forall k | 0 <= k < |story.later| :: h[k + 1] == story.later[k].Some?
  {
    seq(|story.later| + 1, k requires 0 <= k < |story.later| + 1 => if k == 0 then true else story.later[k - 1].Some?)
  }

  /** The record holds what its story says: the filter run on it, the latest confidence, the class of the first. */
  predicate Tells(num: Numerics, cameraId: string, t: TrackRecord, story: Story) {
    && t.filter == RunDense(num.inverse, story.first.box, Steps(story.later))
    && t.confidence == Latest(story).confidence
    && t.classId == story.first.classId && t.className == story.first.className
    && t.cameraId == cameraId
  }

  // ---- One frame ----

  lemma RunOfMore(num: Numerics, first: Detection, later: seq<Option<Detection>>, d: Option<Detection>)
    ensures var s := RunDense(num.inverse, first.box, Steps(later));
            RunDense(num.inverse, first.box, Steps(later + [d]))
            == match d
               case None => DenseFilter.Predict(s)
               case Some(e) => DenseFilter.Update(num.inverse, DenseFilter.Predict(s), Measurement(e.box))
  {
    hide DenseFilter.Predict, DenseFilter.Update, Measurement, DenseFilter.Initial;
    var steps := Steps(later);
    assert (later + [d])[..|later|] == later;
    var predicted := steps + [Predicted];
    assert predicted[..|steps|] == steps;
    match d
    case None =>
    case Some(e) =>
      var all := steps + FrameSteps(d);
      assert all == predicted + [Measured(e.box)];
      assert all[..|predicted|] == predicted;
  }

  lemma LatestOfMore(first: Detection, later: seq<Option<Detection>>, d: Option<Detection>)
    ensures Latest(Story(first, later + [d])) == match d case None => Latest(Story(first, later)) case Some(e) => e
  {
    assert (later + [d])[..|later|] == later;
  }

  /** Ageing, predicting and marking one track adds the frame to its story. */
  lemma SettledTells(num: Numerics, cameraId: string, t: TrackRecord, story: Story, d: Option<Detection>)
    requires t.Shape() && Tells(num, cameraId, t, story)
    ensures Tells(num, cameraId, Settled(num, Advanced(t), d), Story(story.first, story.later + [d]))
  {
    hide DenseFilter.Predict, DenseFilter.Update, Measurement, RunDense, Steps, Latest;
    RunOfMore(num, story.first, story.later, d);
    LatestOfMore(story.first, story.later, d);
  }

  lemma SpawnedTells(num: Numerics, trackId: string, cameraId: string, d: Detection)
    ensures Tells(num, cameraId, Spawned(trackId, cameraId, d), Story(d, []))
  {
    hide Measurement;
  }

  // ---- Runs ----

  /** Tracks and their stories, in step. */
  datatype Told = Told(tracker: Tracker, stories: seq<Story>)

  /** The story of every track of a frame before the clean-up. */
  function AllStories(num: Numerics, told: Told, detections: seq<Detection>): (all: seq<Story>)
    requires told.tracker.Shape() && |told.stories| == |told.tracker.tracks|
    ensures |all| == |BeforeCleanUp(num, told.tracker, detections)|
  {
    var left := Leftover(num, told.tracker, detections);
    seq(|told.stories|, i requires 0 <= i < |told.stories| =>
      Story(told.stories[i].first, told.stories[i].later + [Fate(num, told.tracker, detections, i)]))
    + seq(|left|, j requires 0 <= j < |left| => Story(left[j], []))
  }

  lemma TwoStagesPicks(num: Numerics, s: Tracker, detections: seq<Detection>)
    requires s.Shape()
    ensures var all := BeforeCleanUp(num, s, detections);
            TwoStages(num, s, detections).tracks == Pick(all, AliveRows(all))
  {
    SurvivorsArePicked(BeforeCleanUp(num, s, detections));
    hide Survivors, AliveRows, SettledTracks, Leftover;
  }

  function TellFrame(num: Numerics, told: Told, detections: seq<Detection>): (next: Told)
    requires told.tracker.Shape() && |told.stories| == |told.tracker.tracks|
    ensures next.tracker.Shape() && |next.stories| == |next.tracker.tracks|
  {
    var kept := AliveRows(BeforeCleanUp(num, told.tracker, detections));
    TwoStagesPicks(num, told.tracker, detections);
    Told(TwoStages(num, told.tracker, detections), Pick(AllStories(num, told, detections), kept))
  }

  function ToldRun(num: Numerics, cameraId: string, frames: seq<seq<Detection>>): (told: Told)
    ensures told.tracker.Shape() && |told.stories| == |told.tracker.tracks|
  {
    if frames == [] then Told(NewTracker(cameraId), [])
    else TellFrame(num, ToldRun(num, cameraId, frames[..|frames| - 1]), frames[|frames| - 1])
  }

  /** Telling the stories does not change the tracker. */
  lemma {:induction false} ToldRunIsPlain(num: Numerics, cameraId: string, frames: seq<seq<Detection>>)
    ensures ToldRun(num, cameraId, frames).tracker == PlainRun(num, cameraId, frames)
  {
    if frames != [] {
      var before := frames[..|frames| - 1];
      ToldRunIsPlain(num, cameraId, before);
      StageThreeIdle.ThreeStagesAreTwo(num, PlainRun(num, cameraId, before), frames[|frames| - 1]);
      hide ThreeStages, TwoStages, AllStories;
    }
  }

  ghost predicate AllTell(num: Numerics, told: Told) {
    && |told.stories| == |told.tracker.tracks|
    && forall i | 0 <= i < |told.stories| ::
         Tells(num, told.tracker.cameraId, told.tracker.tracks[i], told.stories[i])
  }

  lemma RowTells(num: Numerics, told: Told, detections: seq<Detection>, r: nat)
    requires told.tracker.Shape() && AllTell(num, told) && r < |BeforeCleanUp(num, told.tracker, detections)|
    ensures Tells(num, told.tracker.cameraId, BeforeCleanUp(num, told.tracker, detections)[r],
                  AllStories(num, told, detections)[r])
  {
    hide Tells, Fate, Leftover, Settled, Spawned, Advanced;
    var s, n := told.tracker, |told.stories|;
    if r < n {
      SettledTells(num, s.cameraId, s.tracks[r], told.stories[r], Fate(num, s, detections, r));
    } else {
      var left := Leftover(num, s, detections);
      SpawnedTells(num, TrackIds.Format(s.cameraId, s.counter + (r - n) + 1), s.cameraId, left[r - n]);
    }
  }

  lemma FrameTells(num: Numerics, told: Told, detections: seq<Detection>)
    requires told.tracker.Shape() && AllTell(num, told)
    ensures AllTell(num, TellFrame(num, told, detections))
  {
    hide Tells, BeforeCleanUp, AllStories, AliveRows;
    var next, all := TellFrame(num, told, detections), BeforeCleanUp(num, told.tracker, detections);
    var kept := AliveRows(all);
    TwoStagesPicks(num, told.tracker, detections);
    forall i | 0 <= i < |next.stories|
      ensures Tells(num, next.tracker.cameraId, next.tracker.tracks[i], next.stories[i])
    {
      RowTells(num, told, detections, kept[i]);
    }
  }

  lemma {:induction false} RunTells(num: Numerics, cameraId: string, frames: seq<seq<Detection>>)
    ensures AllTell(num, ToldRun(num, cameraId, frames))
  {
    hide TellFrame, Tells;
    if frames != [] {
      RunTells(num, cameraId, frames[..|frames| - 1]);
      FrameTells(num, ToldRun(num, cameraId, frames[..|frames| - 1]), frames[|frames| - 1]);
    }
  }

  // ---- The stories and the frames ----

  lemma HighIsOneOf(ds: seq<Detection>, d: Detection)
    requires d in HighOf(ds)
    ensures d in ds && d.confidence >= 0.6
  {
    var rows := HighOfIs(ds);
  }

  lemma LowIsOneOf(ds: seq<Detection>, d: Detection)
    requires d in LowOf(ds)
    ensures d in ds && d.confidence >= 0.1
  {
    var rows := LowOfIs(ds);
  }

  /** The story began in a frame of the run with a high-confidence detection, and has one entry per frame since. */
  predicate FromFrames(story: Story, frames: seq<seq<Detection>>) {
    && |story.later| < |frames|
    && var start := |frames| - 1 - |story.later|;
    && story.first in frames[start] && story.first.confidence >= 0.6
    && forall k | 0 <= k < |story.later| && story.later[k].Some? ::
         story.later[k].value in frames[start + 1 + k] && story.later[k].value.confidence >= 0.1
  }

  lemma FateIsOneOf(num: Numerics, s: Tracker, detections: seq<Detection>, i: nat)
    requires s.Shape() && i < |s.tracks| && Fate(num, s, detections, i).Some?
    ensures var d := Fate(num, s, detections, i).value; d in detections && d.confidence >= 0.1
  {
    hide HighMatch, LowMatch, HighOf, LowOf;
    LowMatchIsPartial(num, s, detections);
    if Fate(num, s, detections, i).value in HighOf(detections) {
      HighIsOneOf(detections, Fate(num, s, detections, i).value);
    } else {
      LowIsOneOf(detections, Fate(num, s, detections, i).value);
    }
  }

  lemma LeftoverIsOneOf(num: Numerics, s: Tracker, detections: seq<Detection>, j: nat)
    requires s.Shape() && j < |Leftover(num, s, detections)|
    ensures var d := Leftover(num, s, detections)[j]; d in detections && d.confidence >= 0.6
  {
    var cols := FreeColumns(HighMatch(num, s, detections), |HighOf(detections)|);
    FreeColumnsWithin(HighMatch(num, s, detections), |HighOf(detections)|);
    assert Leftover(num, s, detections) == Pick(HighOf(detections), cols);
    hide HighMatch, HighOf, FreeColumns;
    assert Leftover(num, s, detections)[j] == HighOf(detections)[cols[j]];
    HighIsOneOf(detections, Leftover(num, s, detections)[j]);
  }

  lemma StoryGrows(story: Story, frames: seq<seq<Detection>>, detections: seq<Detection>, d: Option<Detection>)
    requires FromFrames(story, frames)
    requires d.Some? ==> d.value in detections && d.value.confidence >= 0.1
    ensures FromFrames(Story(story.first, story.later + [d]), frames + [detections])
  {
  }

  ghost predicate AllFrom(told: Told, frames: seq<seq<Detection>>) {
    forall i | 0 <= i < |told.stories| :: FromFrames(told.stories[i], frames)
  }

  lemma NewStory(d: Detection, frames: seq<seq<Detection>>, detections: seq<Detection>)
    requires d in detections && d.confidence >= 0.6
    ensures FromFrames(Story(d, []), frames + [detections])
  {
  }

  lemma RowIsFrom(num: Numerics, told: Told, frames: seq<seq<Detection>>, detections: seq<Detection>, r: nat)
    requires told.tracker.Shape() && |told.stories| == |told.tracker.tracks| && AllFrom(told, frames)
    requires r < |AllStories(num, told, detections)|
    ensures FromFrames(AllStories(num, told, detections)[r], frames + [detections])
  {
    hide FromFrames, Fate, Leftover, BeforeCleanUp;
    var n := |told.stories|;
    if r < n {
      var d := Fate(num, told.tracker, detections, r);
      if d.Some? {
        FateIsOneOf(num, told.tracker, detections, r);
      }
      StoryGrows(told.stories[r], frames, detections, d);
    } else {
      LeftoverIsOneOf(num, told.tracker, detections, r - n);
      NewStory(Leftover(num, told.tracker, detections)[r - n], frames, detections);
    }
  }

  lemma {:induction false} RunIsFrom(num: Numerics, cameraId: string, frames: seq<seq<Detection>>)
    ensures AllFrom(ToldRun(num, cameraId, frames), frames)
  {
    hide FromFrames, AllStories, BeforeCleanUp, TwoStages, AliveRows;
    if frames != [] {
      var before, last := frames[..|frames| - 1], frames[|frames| - 1];
      RunIsFrom(num, cameraId, before);
      assert frames == before + [last];
      var told := ToldRun(num, cameraId, before);
      TwoStagesPicks(num, told.tracker, last);
      forall r: nat | r < |AllStories(num, told, last)|
        ensures FromFrames(AllStories(num, told, last)[r], frames)
      {
        RowIsFrom(num, told, before, last, r);
      }
    }
  }

  // ---- The stories and the match histories ----

  /** Every live track's history is that of its story. */
  ghost predicate InStepWith(told: Told, log: Logged) {
    && told.tracker == log.tracker && |told.stories| == |log.serials|
    && forall i | 0 <= i < |told.stories| ::
         1 <= log.serials[i] <= |log.histories| && log.histories[log.serials[i] - 1] == HitsOf(told.stories[i])
  }

  lemma HitsOfMore(story: Story, d: Option<Detection>)
    ensures HitsOf(Story(story.first, story.later + [d])) == HitsOf(story) + [d.Some?]
    ensures HitsOf(Story(story.first, [])) == [true]
  {
  }

  lemma RowCounts(num: Numerics, log: Logged, detections: seq<Detection>)
    requires Consistent(log)
    ensures |BeforeCleanUp(num, log.tracker, detections)| == |log.serials| + |Leftover(num, log.tracker, detections)|
    ensures |AllSerials(num, log, detections)| == |BeforeCleanUp(num, log.tracker, detections)|
  {
    hide Leftover, SettledTracks, LiveTrack, LifeAfter;
  }

  lemma NewHistory(num: Numerics, log: Logged, detections: seq<Detection>, j: nat)
    requires Consistent(log) && j < |Leftover(num, log.tracker, detections)|
    ensures var hs := LogFrame(num, log, detections).histories;
            log.tracker.counter + j < |hs| && hs[log.tracker.counter + j] == [true]
  {
    hide Leftover, TwoStages, BeforeCleanUp, WasHit, LiveTrack, LifeAfter;
  }

  lemma RowInStep(num: Numerics, told: Told, log: Logged, detections: seq<Detection>, r: nat)
    requires Consistent(log) && InStepWith(told, log) && r < |BeforeCleanUp(num, log.tracker, detections)|
    ensures var cs, hs := AllSerials(num, log, detections), LogFrame(num, log, detections).histories;
            && |told.stories| == |told.tracker.tracks|
            && r < |cs| && 1 <= cs[r] <= |hs| && hs[cs[r] - 1] == HitsOf(AllStories(num, told, detections)[r])
  {
    hide Fate, Leftover, LogFrame, BeforeCleanUp, LiveTrack, LifeAfter, HitsOf, WasHit;
    var n, left := |log.serials|, Leftover(num, log.tracker, detections);
    RowCounts(num, log, detections);
    if r < n {
      var c := log.serials[r];
      HitIffFate(num, log, detections, r);
      HistoryGrows(num, log, detections, c - 1);
      HitsOfMore(told.stories[r], Fate(num, log.tracker, detections, r));
    } else {
      NewHistory(num, log, detections, r - n);
      HitsOfMore(Story(left[r - n], []), None);
    }
  }

  lemma SameTracker(num: Numerics, log: Logged, detections: seq<Detection>)
    requires log.tracker.Shape() && |log.serials| == |log.tracker.tracks|
    ensures LogFrame(num, log, detections).tracker == TwoStages(num, log.tracker, detections)
  {
    hide TwoStages, BeforeCleanUp, AllSerials, WasHit, Leftover;
  }

  lemma SameFirst(told: Told, log: Logged)
    requires InStepWith(told, log)
    ensures told.tracker == log.tracker
  {
    hide HitsOf;
  }

  lemma TellFrameParts(num: Numerics, told: Told, detections: seq<Detection>)
    requires told.tracker.Shape() && |told.stories| == |told.tracker.tracks|
    ensures var kept := AliveRows(BeforeCleanUp(num, told.tracker, detections));
            && TellFrame(num, told, detections).tracker == TwoStages(num, told.tracker, detections)
            && TellFrame(num, told, detections).stories == Pick(AllStories(num, told, detections), kept)
  {
    hide AllStories, AliveRows, TwoStages, BeforeCleanUp;
  }

  lemma StillInStep(told: Told, log: Logged)
    requires told.tracker == log.tracker && |told.stories| == |log.serials|
    requires forall i | 0 <= i < |log.serials| ::
               1 <= log.serials[i] <= |log.histories| && log.histories[log.serials[i] - 1] == HitsOf(told.stories[i])
    ensures InStepWith(told, log)
  {
    hide HitsOf;
  }

  /** One frame keeps the stories and the histories in step. */
  lemma FrameInStep(num: Numerics, told: Told, log: Logged, detections: seq<Detection>)
    requires told.tracker.Shape() && |told.stories| == |told.tracker.tracks|
    requires log.tracker.Shape() && |log.serials| == |log.tracker.tracks|
    requires Consistent(log) && InStepWith(told, log)
    ensures InStepWith(TellFrame(num, told, detections), LogFrame(num, log, detections))
  {
    hide *;
    var next, logged := TellFrame(num, told, detections), LogFrame(num, log, detections);
    SameFirst(told, log);
    LogFrameParts(num, log, detections);
    SameTracker(num, log, detections);
    TellFrameParts(num, told, detections);
    var kept := AliveRows(BeforeCleanUp(num, log.tracker, detections));
    forall i | 0 <= i < |kept|
      ensures 1 <= logged.serials[i] <= |logged.histories|
      ensures logged.histories[logged.serials[i] - 1] == HitsOf(next.stories[i])
    {
      RowInStep(num, told, log, detections, kept[i]);
    }
    StillInStep(next, logged);
  }

  lemma {:induction false} RunInStep(num: Numerics, cameraId: string, frames: seq<seq<Detection>>)
    ensures InStepWith(ToldRun(num, cameraId, frames), LoggedRun(num, cameraId, frames))
  {
    hide TellFrame, LogFrame, Consistent, HitsOf;
    if frames != [] {
      var before, last := frames[..|frames| - 1], frames[|frames| - 1];
      RunInStep(num, cameraId, before);
      RunIsConsistent(num, cameraId, before);
      FrameInStep(num, ToldRun(num, cameraId, before), LoggedRun(num, cameraId, before), last);
    }
  }

  // ---- What is published ----

  /** The published track shows what its record's story and history say. */
  predicate Shows(num: Numerics, cameraId: string, out: Track, frameId: string, serial: nat, story: Story) {
    var h := HitsOf(story);
    && out.trackId == TrackIds.Format(cameraId, serial) && out.cameraId == cameraId && out.frameId == frameId
    && out.box == ToBox(num.sqrt, RunDense(num.inverse, story.first.box, Steps(story.later)).x)
    && out.classId == story.first.classId && out.className == story.first.className
    && out.confidence == Latest(story).confidence
    && out.state == StateOf(Hits(h), TrailingMisses(h)) && out.hits == Hits(h) && out.ageFrames == |h|
  }

  /**
   * On every run, every live track has a story made of the run's detections, its match history is that of the story,
   * and the filter, the confidence and the class it holds are those the story gives: the filter run on one prediction
   * per frame and one update per detection.
   */
  lemma LiveTracksTell(num: Numerics, cameraId: string, frames: seq<seq<Detection>>, i: nat)
    requires i < |PlainRun(num, cameraId, frames).tracks|
    ensures var s, told, log := PlainRun(num, cameraId, frames), ToldRun(num, cameraId, frames),
                                LoggedRun(num, cameraId, frames);
            && i < |told.stories| && i < |log.serials| && 1 <= log.serials[i] <= |log.histories|
            && Tells(num, cameraId, s.tracks[i], told.stories[i]) && FromFrames(told.stories[i], frames)
            && log.histories[log.serials[i] - 1] == HitsOf(told.stories[i])
  {
    ToldRunIsPlain(num, cameraId, frames);
    RunTells(num, cameraId, frames);
    RunIsFrom(num, cameraId, frames);
    RunInStep(num, cameraId, frames);
    hide ToldRun, LoggedRun, PlainRun, Tells, FromFrames, HitsOf;
  }

  /** What update returns for the last frame of a run shows exactly that, track by track. */
  lemma PublishedTracksShow(num: Numerics, cameraId: string, frames: seq<seq<Detection>>, frameId: string, i: nat)
    requires i < |PlainRun(num, cameraId, frames).tracks|
    ensures var out := Published(num, PlainRun(num, cameraId, frames).tracks, frameId);
            var told, log := ToldRun(num, cameraId, frames), LoggedRun(num, cameraId, frames);
            && i < |out| && i < |told.stories| && i < |log.serials|
            && Shows(num, cameraId, out[i], frameId, log.serials[i], told.stories[i])
  {
    LiveTracksTell(num, cameraId, frames, i);
    LiveCounters(num, cameraId, frames, i);
    hide ToldRun, LoggedRun, PlainRun, FromFrames, HitsOf, RunDense, Steps, Latest, Hits, TrailingMisses, StateOf,
      ToBox, TrackIds.Format;
  }
}
