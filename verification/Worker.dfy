// The inference worker: per-camera trackers fed in batches, publish before ack.

module Workers {
  import opened Collections
  import opened Tracks
  import opened Trackers
  import opened Frames
  import StageThreeIdle

  datatype RawFrame = RawFrame(frameId: string, cameraId: string, frameUri: string)

  /** A consumed message: broker id and frame. */
  datatype Item = Item(messageId: string, frame: RawFrame)

  /** Loading a frame's image and running the per-image detector on it. */
  type Detector = RawFrame -> seq<Detection>

  /** What the worker does to the broker, in order. */
  datatype Effect = Publish(track: Track) | Ack(messageId: string)

  /** One tracker per camera seen so far, and everything sent to the broker. */
  datatype WorkerState = WorkerState(trackers: map<string, Tracker>, log: seq<Effect>) {
    predicate Shape() {
      forall c | c in trackers :: trackers[c].Shape() && trackers[c].cameraId == c
    }
  }

  const FRESH := WorkerState(map[], [])

  function TrackerFor(trackers: map<string, Tracker>, cameraId: string): (t: Tracker)
    requires forall c | c in trackers :: trackers[c].Shape() && trackers[c].cameraId == c
    ensures t.Shape() && t.cameraId == cameraId
  {
    if cameraId in trackers then trackers[cameraId] else NewTracker(cameraId)
  }

  function Publications(tracks: seq<Track>): (effects: seq<Effect>)
    ensures |effects| == |tracks| && forall i | 0 <= i < |tracks| :: effects[i] == Publish(tracks[i])
  {
    seq(|tracks|, i requires 0 <= i < |tracks| => Publish(tracks[i]))
  }

  /** A camera's tracker after one of its frames. */
  function NextTracker(num: Numerics, detect: Detector, t: Tracker, frame: RawFrame): (next: Tracker)
    requires t.Shape()
    ensures next.Shape() && next.cameraId == t.cameraId
  {
    ThreeStages(num, t, detect(frame))
  }

  /** The tracks a frame makes the worker publish. */
  function FrameOutput(num: Numerics, detect: Detector, t: Tracker, frame: RawFrame): seq<Track>
    requires t.Shape()
  {
    Published(num, NextTracker(num, detect, t, frame).tracks, frame.frameId)
  }

  /** One frame: update its camera's tracker, publish every track, then ack. */
  function ProcessItem(num: Numerics, detect: Detector, w: WorkerState, item: Item): (next: WorkerState)
    requires w.Shape()
    ensures next.Shape()
  {
    hide NextTracker, FrameOutput;
    var t := TrackerFor(w.trackers, item.frame.cameraId);
    WorkerState(w.trackers[item.frame.cameraId := NextTracker(num, detect, t, item.frame)],
                w.log + Publications(FrameOutput(num, detect, t, item.frame)) + [Ack(item.messageId)])
  }

  /** Frames one at a time. */
  function ProcessItems(num: Numerics, detect: Detector, w: WorkerState, items: seq<Item>): (next: WorkerState)
    requires w.Shape()
    ensures next.Shape()
  {
    if items == [] then w
    else ProcessItem(num, detect, ProcessItems(num, detect, w, items[..|items| - 1]), items[|items| - 1])
  }

  /** Frames batch by batch. */
  function ProcessBatches(num: Numerics, detect: Detector, w: WorkerState, batches: seq<seq<Item>>): (next: WorkerState)
    requires w.Shape()
    ensures next.Shape()
  {
    if batches == [] then w
    else
      var last := |batches| - 1;
      ProcessItems(num, detect, ProcessBatches(num, detect, w, batches[..last]), batches[last])
  }

  lemma {:induction false} ProcessConcatenation(num: Numerics, detect: Detector, w: WorkerState, a: seq<Item>,
                                                b: seq<Item>)
    requires w.Shape()
    ensures ProcessItems(num, detect, w, a + b) == ProcessItems(num, detect, ProcessItems(num, detect, w, a), b)
  {
    hide ProcessItem;
    if b == [] {
      assert a + b == a;
    } else {
      var last := |b| - 1;
      assert (a + b)[..|a + b| - 1] == a + b[..last];
      ProcessConcatenation(num, detect, w, a, b[..last]);
    }
  }

  /** Batching is transparent: any split into batches has the same effects as one frame at a time. */
  lemma {:induction false} BatchingIsTransparent(num: Numerics, detect: Detector, w: WorkerState,
                                                 batches: seq<seq<Item>>)
    requires w.Shape()
    ensures ProcessBatches(num, detect, w, batches) == ProcessItems(num, detect, w, Concat(batches))
  {
    hide ProcessItem;
    if batches != [] {
      var last := |batches| - 1;
      BatchingIsTransparent(num, detect, w, batches[..last]);
      ProcessConcatenation(num, detect, w, Concat(batches[..last]), batches[last]);
    }
  }

  // ---- Each camera sees only its own tracker ----

  /** The published tracks of one camera, in order. */
  function PublishedFor(log: seq<Effect>, cameraId: string): seq<Track> {
    if log == [] then []
    else
      var rest := PublishedFor(log[..|log| - 1], cameraId);
      match log[|log| - 1]
      case Publish(t) => if t.cameraId == cameraId then rest + [t] else rest
      case Ack(_) => rest
  }

  function FramesOf(items: seq<Item>, cameraId: string): seq<RawFrame> {
    if items == [] then []
    else FramesOf(items[..|items| - 1], cameraId)
         + (if items[|items| - 1].frame.cameraId == cameraId then [items[|items| - 1].frame] else [])
  }

  /** A lone tracker after one camera's frames. */
  function LoneTracker(num: Numerics, detect: Detector, cameraId: string, frames: seq<RawFrame>): (t: Tracker)
    ensures t.Shape() && t.cameraId == cameraId
  {
    if frames == [] then NewTracker(cameraId)
    else NextTracker(num, detect, LoneTracker(num, detect, cameraId, frames[..|frames| - 1]), frames[|frames| - 1])
  }

  /** Everything the lone tracker returned. */
  function LoneOutput(num: Numerics, detect: Detector, cameraId: string, frames: seq<RawFrame>): seq<Track> {
    if frames == [] then []
    else
      var before := frames[..|frames| - 1];
      LoneOutput(num, detect, cameraId, before)
      + FrameOutput(num, detect, LoneTracker(num, detect, cameraId, before), frames[|frames| - 1])
  }

  /** Every track of a tracker carries the tracker's camera. */
  predicate OwnCamera(t: Tracker) {
    forall i | 0 <= i < |t.tracks| :: t.tracks[i].cameraId == t.cameraId
  }

  lemma CleanUpKeepsCamera(t: Tracker, settled: seq<TrackRecord>, newcomers: seq<Detection>)
    requires AllShaped(settled) && forall i | 0 <= i < |settled| :: settled[i].cameraId == t.cameraId
    ensures OwnCamera(CleanUp(t, settled, newcomers))
  {
    var all, next := settled + SpawnAll(t.cameraId, t.counter, newcomers), CleanUp(t, settled, newcomers);
    assert forall r | r in all :: r.cameraId == t.cameraId;
    forall i | 0 <= i < |next.tracks|
      ensures next.tracks[i].cameraId == t.cameraId
    {
      assert next.tracks[i] in next.tracks;
    }
  }

  lemma SettledCamera(num: Numerics, t: Tracker, detections: seq<Detection>, i: nat)
    requires t.Shape() && i < |t.tracks|
    ensures SettledTracks(num, t, detections)[i].cameraId == t.tracks[i].cameraId
  {
    hide Fate, SettledTracks;
  }

  lemma FrameKeepsCamera(num: Numerics, t: Tracker, detections: seq<Detection>)
    requires t.Shape() && OwnCamera(t)
    ensures OwnCamera(ThreeStages(num, t, detections))
  {
    StageThreeIdle.ThreeStagesAreTwo(num, t, detections);
    hide HighMatch, LowMatch, Leftover, ThreeStages, Fate, CleanUp, SettledTracks;
    forall i: nat | i < |t.tracks|
      ensures SettledTracks(num, t, detections)[i].cameraId == t.cameraId
    {
      SettledCamera(num, t, detections, i);
    }
    CleanUpKeepsCamera(t, SettledTracks(num, t, detections), Leftover(num, t, detections));
  }

  lemma {:induction false} PublishedForAppend(a: seq<Effect>, b: seq<Effect>, cameraId: string)
    ensures PublishedFor(a + b, cameraId) == PublishedFor(a, cameraId) + PublishedFor(b, cameraId)
  {
    if b == [] {
      assert a + b == a;
    } else {
      assert (a + b)[..|a + b| - 1] == a + b[..|b| - 1];
      PublishedForAppend(a, b[..|b| - 1], cameraId);
    }
  }

  lemma {:induction false} PublishedForOutput(tracks: seq<Track>, own: string, cameraId: string)
    requires forall i | 0 <= i < |tracks| :: tracks[i].cameraId == own
    ensures PublishedFor(Publications(tracks), cameraId) == if own == cameraId then tracks else []
  {
    var ps := Publications(tracks);
    if tracks != [] {
      var last := |tracks| - 1;
      assert ps[..last] == Publications(tracks[..last]);
      PublishedForOutput(tracks[..last], own, cameraId);
      assert tracks == tracks[..last] + [tracks[last]];
    }
  }

  /** What the worker holds and has published for one camera is what a lone tracker would. */
  predicate LikeLone(num: Numerics, detect: Detector, w: WorkerState, frames: seq<RawFrame>, cameraId: string)
    requires w.Shape()
  {
    && TrackerFor(w.trackers, cameraId) == LoneTracker(num, detect, cameraId, frames)
    && PublishedFor(w.log, cameraId) == LoneOutput(num, detect, cameraId, frames)
  }

  lemma {:induction false} LoneTrackerOwnsCamera(num: Numerics, detect: Detector, cameraId: string,
                                                 frames: seq<RawFrame>)
    ensures OwnCamera(LoneTracker(num, detect, cameraId, frames))
  {
    hide ThreeStages;
    if frames != [] {
      var before := frames[..|frames| - 1];
      LoneTrackerOwnsCamera(num, detect, cameraId, before);
      FrameKeepsCamera(num, LoneTracker(num, detect, cameraId, before), detect(frames[|frames| - 1]));
    }
  }

  lemma OutputHasOwnCamera(num: Numerics, detect: Detector, t: Tracker, frame: RawFrame)
    requires t.Shape() && OwnCamera(t)
    ensures forall i | 0 <= i < |FrameOutput(num, detect, t, frame)| ::
              FrameOutput(num, detect, t, frame)[i].cameraId == t.cameraId
  {
    FrameKeepsCamera(num, t, detect(frame));
    hide ThreeStages;
  }

  /** What one frame adds to the log is its own camera's output, and nothing for other cameras. */
  lemma LogOfFrame(log: seq<Effect>, output: seq<Track>, own: string, messageId: string, cameraId: string)
    requires forall i | 0 <= i < |output| :: output[i].cameraId == own
    ensures PublishedFor(log + Publications(output) + [Ack(messageId)], cameraId)
         == PublishedFor(log, cameraId) + (if own == cameraId then output else [])
  {
    var ps := Publications(output);
    PublishedForAppend(log + ps, [Ack(messageId)], cameraId);
    PublishedForAppend(log, ps, cameraId);
    PublishedForOutput(output, own, cameraId);
    assert PublishedFor([Ack(messageId)], cameraId) == [];
  }

  lemma TrackerAfterItem(num: Numerics, detect: Detector, w: WorkerState, item: Item, cameraId: string)
    requires w.Shape()
    ensures TrackerFor(ProcessItem(num, detect, w, item).trackers, cameraId)
         == if item.frame.cameraId == cameraId
            then NextTracker(num, detect, TrackerFor(w.trackers, cameraId), item.frame)
            else TrackerFor(w.trackers, cameraId)
  {
    hide NextTracker, FrameOutput;
  }

  lemma ItemEffect(num: Numerics, detect: Detector, w: WorkerState, item: Item, cameraId: string)
    requires w.Shape() && OwnCamera(TrackerFor(w.trackers, item.frame.cameraId))
    ensures TrackerFor(ProcessItem(num, detect, w, item).trackers, cameraId)
         == if item.frame.cameraId == cameraId
            then NextTracker(num, detect, TrackerFor(w.trackers, cameraId), item.frame)
            else TrackerFor(w.trackers, cameraId)
    ensures PublishedFor(ProcessItem(num, detect, w, item).log, cameraId)
         == PublishedFor(w.log, cameraId)
            + if item.frame.cameraId == cameraId
              then FrameOutput(num, detect, TrackerFor(w.trackers, cameraId), item.frame) else []
  {
    hide NextTracker, FrameOutput, PublishedFor, Publications, OwnCamera, TrackerFor;
    var t := TrackerFor(w.trackers, item.frame.cameraId);
    TrackerAfterItem(num, detect, w, item, cameraId);
    OutputHasOwnCamera(num, detect, t, item.frame);
    LogOfFrame(w.log, FrameOutput(num, detect, t, item.frame), item.frame.cameraId, item.messageId, cameraId);
  }

  lemma FramesOfLast(items: seq<Item>, item: Item, cameraId: string)
    ensures FramesOf(items + [item], cameraId)
         == FramesOf(items, cameraId) + (if item.frame.cameraId == cameraId then [item.frame] else [])
  {
    assert (items + [item])[..|items + [item]| - 1] == items;
  }

  lemma LoneStep(num: Numerics, detect: Detector, w: WorkerState, frames: seq<RawFrame>, item: Item, cameraId: string)
    requires w.Shape() && LikeLone(num, detect, w, frames, cameraId)
    requires OwnCamera(TrackerFor(w.trackers, item.frame.cameraId))
    ensures LikeLone(num, detect, ProcessItem(num, detect, w, item),
                     frames + (if item.frame.cameraId == cameraId then [item.frame] else []), cameraId)
  {
    hide ProcessItem, NextTracker, FrameOutput, PublishedFor, TrackerFor, OwnCamera;
    ItemEffect(num, detect, w, item, cameraId);
    var more := frames + (if item.frame.cameraId == cameraId then [item.frame] else []);
    if item.frame.cameraId == cameraId {
      assert more[..|more| - 1] == frames;
    } else {
      assert more == frames;
    }
  }

  /** For every camera, the worker publishes exactly what one lone tracker returns on that camera's frames. */
  lemma {:induction false} CamerasAreIndependent(num: Numerics, detect: Detector, items: seq<Item>, cameraId: string)
    ensures LikeLone(num, detect, ProcessItems(num, detect, FRESH, items), FramesOf(items, cameraId), cameraId)
  {
    hide ProcessItem, NextTracker, OwnCamera;
    if items != [] {
      var before, item := items[..|items| - 1], items[|items| - 1];
      CamerasAreIndependent(num, detect, before, cameraId);
      CamerasAreIndependent(num, detect, before, item.frame.cameraId);
      LoneTrackerOwnsCamera(num, detect, item.frame.cameraId, FramesOf(before, item.frame.cameraId));
      LoneStep(num, detect, ProcessItems(num, detect, FRESH, before), FramesOf(before, cameraId), item, cameraId);
      FramesOfLast(before, item, cameraId);
      assert items == before + [item];
      hide LikeLone, FramesOf;
    }
  }
}
