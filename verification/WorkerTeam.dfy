// Several workers on one consumer group: exactly when two of them give the same id to different tracks of a camera.

module WorkerTeams {
  import opened Assignments
  import opened Tracks
  import opened Trackers
  import opened Frames
  import opened Workers
  import Conservation
  import StageThreeIdle
  import TrackIds

  /** What one worker's tracker of a camera starts at one of its frames. */
  function CreatedAt(num: Numerics, t: Tracker, detections: seq<Detection>): seq<TrackRecord>
    requires t.Shape()
  {
    SpawnAll(t.cameraId, t.counter, Unplaced(num, t, detections))
  }

  /** The tracks of one camera that a worker creates while it processes the given frames, in order. */
  function CreatedBy(num: Numerics, detect: Detector, items: seq<Item>, cameraId: string): seq<TrackRecord> {
    if items == [] then []
    else
      var before, frame := items[..|items| - 1], items[|items| - 1].frame;
      CreatedBy(num, detect, before, cameraId)
      + if frame.cameraId != cameraId then []
        else CreatedAt(num, TrackerFor(ProcessItems(num, detect, FRESH, before).trackers, cameraId), detect(frame))
  }

  /** The frame belongs to the camera and shows a high-confidence detection. */
  predicate Shows(detect: Detector, item: Item, cameraId: string) {
    item.frame.cameraId == cameraId && HighOf(detect(item.frame)) != []
  }

  /** Some frame of the camera shows a high-confidence detection. */
  predicate SomeShows(detect: Detector, items: seq<Item>, cameraId: string) {
    exists x :: 0 <= x < |items| && Shows(detect, items[x], cameraId)
  }

  lemma CounterAfterFrame(num: Numerics, t: Tracker, detections: seq<Detection>)
    requires t.Shape()
    ensures ThreeStages(num, t, detections).counter == t.counter + |CreatedAt(num, t, detections)|
  {
    ThreeStagesDefinition(num, t, detections);
    hide ThreeStages, Unplaced;
  }

  /** The ids of the created tracks count up from one. */
  lemma {:induction false} CreatedIds(num: Numerics, detect: Detector, items: seq<Item>, cameraId: string)
    ensures var created := CreatedBy(num, detect, items, cameraId);
            && |created| == TrackerFor(ProcessItems(num, detect, FRESH, items).trackers, cameraId).counter
            && forall c | 0 <= c < |created| :: created[c].trackId == TrackIds.Format(cameraId, c + 1)
  {
    hide ProcessItem, ThreeStages, Unplaced, TrackIds.Format;
    if items != [] {
      var before, item := items[..|items| - 1], items[|items| - 1];
      var w := ProcessItems(num, detect, FRESH, before);
      CreatedIds(num, detect, before, cameraId);
      TrackerAfterItem(num, detect, w, item, cameraId);
      CounterAfterFrame(num, TrackerFor(w.trackers, cameraId), detect(item.frame));
    }
  }

  // ---- When a worker creates a track ----

  /** A tracker that never created a track has none. */
  predicate EmptyUntilFirst(t: Tracker) {
    t.counter == 0 ==> t.tracks == []
  }

  lemma FrameKeepsEmpty(num: Numerics, t: Tracker, detections: seq<Detection>)
    requires t.Shape() && EmptyUntilFirst(t)
    ensures EmptyUntilFirst(ThreeStages(num, t, detections))
  {
    StageThreeIdle.ThreeStagesAreTwo(num, t, detections);
    hide ThreeStages, Leftover, Fate;
  }

  lemma {:induction false} WorkerKeepsEmpty(num: Numerics, detect: Detector, items: seq<Item>, cameraId: string)
    ensures EmptyUntilFirst(TrackerFor(ProcessItems(num, detect, FRESH, items).trackers, cameraId))
  {
    hide ProcessItem, ThreeStages;
    if items != [] {
      var before, item := items[..|items| - 1], items[|items| - 1];
      var w := ProcessItems(num, detect, FRESH, before);
      WorkerKeepsEmpty(num, detect, before, cameraId);
      TrackerAfterItem(num, detect, w, item, cameraId);
      FrameKeepsEmpty(num, TrackerFor(w.trackers, cameraId), detect(item.frame));
    }
  }

  /** A frame without high-confidence detections creates nothing; with one, a tracker without tracks does. */
  lemma CreatedAtFrame(num: Numerics, t: Tracker, detections: seq<Detection>)
    requires t.Shape()
    ensures HighOf(detections) == [] ==> CreatedAt(num, t, detections) == []
    ensures HighOf(detections) != [] && t.tracks == [] ==> CreatedAt(num, t, detections) != []
  {
    StageThreeIdle.UnplacedIsLeftover(num, t, detections);
    Conservation.LeftoverCount(num, t, detections);
    hide Unplaced, Leftover, HighMatch, HighOf;
  }

  lemma ShownByLast(detect: Detector, items: seq<Item>, cameraId: string)
    requires items != []
    ensures SomeShows(detect, items, cameraId)
       <==> SomeShows(detect, items[..|items| - 1], cameraId) || Shows(detect, items[|items| - 1], cameraId)
  {
    var before := items[..|items| - 1];
    hide Shows;
    if SomeShows(detect, before, cameraId) {
      var x :| 0 <= x < |before| && Shows(detect, before[x], cameraId);
      assert Shows(detect, items[x], cameraId);
    }
    if SomeShows(detect, items, cameraId) {
      var x :| 0 <= x < |items| && Shows(detect, items[x], cameraId);
      assert x < |before| ==> Shows(detect, before[x], cameraId);
    }
  }

  /** A worker creates a track for a camera exactly if one of its frames shows a high-confidence detection. */
  lemma {:induction false} CreatesIffShown(num: Numerics, detect: Detector, items: seq<Item>, cameraId: string)
    ensures CreatedBy(num, detect, items, cameraId) != [] <==> SomeShows(detect, items, cameraId)
  {
    hide ProcessItem, CreatedAt, HighOf;
    if items != [] {
      var before, item := items[..|items| - 1], items[|items| - 1];
      var t := TrackerFor(ProcessItems(num, detect, FRESH, before).trackers, cameraId);
      CreatesIffShown(num, detect, before, cameraId);
      CreatedIds(num, detect, before, cameraId);
      WorkerKeepsEmpty(num, detect, before, cameraId);
      CreatedAtFrame(num, t, detect(item.frame));
      ShownByLast(detect, items, cameraId);
    }
  }

  // ---- The team ----

  /** Track c of worker k and track d of worker l are different tracks of the camera with the same id. */
  predicate SameId(num: Numerics, detect: Detector, team: seq<seq<Item>>, cameraId: string, k: nat, c: nat, l: nat,
                   d: nat)
    requires k < |team| && l < |team|
  {
    var a, b := CreatedBy(num, detect, team[k], cameraId), CreatedBy(num, detect, team[l], cameraId);
    c < |a| && d < |b| && (k != l || c != d) && a[c].trackId == b[d].trackId
  }

  /**
   * However the frames are split over the workers, two different tracks of a camera share an id exactly if two
   * workers each got a frame of the camera with a high-confidence detection.
   */
  lemma SharedIdsIffSplit(num: Numerics, detect: Detector, team: seq<seq<Item>>, cameraId: string)
    ensures (exists k: nat, c: nat, l: nat, d: nat ::
               k < |team| && l < |team| && SameId(num, detect, team, cameraId, k, c, l, d))
       <==> (exists k: nat, l: nat ::
               k < l < |team| && SomeShows(detect, team[k], cameraId) && SomeShows(detect, team[l], cameraId))
  {
    hide CreatedBy, SomeShows, TrackIds.Format;
    forall k: nat | k < |team|
      ensures var created := CreatedBy(num, detect, team[k], cameraId);
              && (created != [] <==> SomeShows(detect, team[k], cameraId))
              && forall c | 0 <= c < |created| :: created[c].trackId == TrackIds.Format(cameraId, c + 1)
    {
      CreatesIffShown(num, detect, team[k], cameraId);
      CreatedIds(num, detect, team[k], cameraId);
    }
    if k: nat, c: nat, l: nat, d: nat :|
      k < |team| && l < |team| && SameId(num, detect, team, cameraId, k, c, l, d)
    {
      TrackIds.FormatInjective(cameraId, c + 1, cameraId, d + 1);
      assert k < l || l < k;
    }
    if k: nat, l: nat :|
      k < l < |team| && SomeShows(detect, team[k], cameraId) && SomeShows(detect, team[l], cameraId)
    {
      assert SameId(num, detect, team, cameraId, k, 0, l, 0);
    }
  }
}
