// InferenceWorker as an object holding one ByteTracker per camera.

module WorkerObjects {
  import opened Wrappers
  import opened Tracks
  import opened Trackers
  import opened Frames
  import opened TrackerObjects
  import opened Workers
  import opened WorkerBatches
  import Detectors

  /** The worker's view of the broker: the effects it has sent, in order. */
  class BrokerClient {
    var log: seq<Effect>

    constructor ()
      ensures log == []
    {
      log := [];
    }

    method PublishTrack(t: Track)
      modifies this
      ensures log == old(log) + [Publish(t)]
    {
      log := log + [Publish(t)];
    }

    method AckMessage(messageId: string)
      modifies this
      ensures log == old(log) + [Ack(messageId)]
    {
      log := log + [Ack(messageId)];
    }
  }

  /** The objects of all trackers. */
  ghost function ObjectsOf(ts: map<string, ByteTracker>): set<object>
    reads ts.Values
  {
    set c, o | c in ts && o in ts[c].Repr :: o
  }

  ghost function ValuesOf(ts: map<string, ByteTracker>): map<string, Tracker>
    reads ts.Values
  {
    map c | c in ts :: ts[c].Contents
  }

  /** Every tracker is valid and serves its own camera. */
  ghost predicate Serving(ts: map<string, ByteTracker>)
    reads ts.Values, ObjectsOf(ts)
  {
    forall c | c in ts :: ts[c].Valid() && ts[c].cameraId == c
  }

  /** No two cameras' trackers share an object. */
  ghost predicate Apart(ts: map<string, ByteTracker>)
    reads ts.Values
  {
    forall c, d | c in ts && d in ts && c != d :: ts[c].Repr !! ts[d].Repr
  }

  lemma OneMoreServes(ts: map<string, ByteTracker>, cameraId: string, tracker: ByteTracker)
    requires Serving(ts) && Apart(ts) && cameraId !in ts
    requires tracker.Valid() && tracker.cameraId == cameraId && ObjectsOf(ts) !! tracker.Repr
    ensures Serving(ts[cameraId := tracker]) && Apart(ts[cameraId := tracker])
  {
    hide ByteTracker.Valid;
    var more := ts[cameraId := tracker];
    assert forall c | c in ts :: c in more && more[c] == ts[c] && c != cameraId;
  }

  /** One more camera's tracker that shares nothing with the others. */
  lemma OneMoreTracker(ts: map<string, ByteTracker>, cameraId: string, tracker: ByteTracker)
    requires Serving(ts) && Apart(ts) && cameraId !in ts
    requires tracker.Valid() && tracker.cameraId == cameraId && ObjectsOf(ts) !! tracker.Repr
    ensures var more := ts[cameraId := tracker];
            && Serving(more) && Apart(more)
            && ValuesOf(more) == ValuesOf(ts)[cameraId := tracker.Contents]
            && ObjectsOf(more) == ObjectsOf(ts) + tracker.Repr
  {
    hide ByteTracker.Valid, Serving, Apart;
    OneMoreServes(ts, cameraId, tracker);
    var more := ts[cameraId := tracker];
    assert forall c | c in ts :: c in more && more[c] == ts[c] && c != cameraId;
    forall o | o in tracker.Repr
      ensures o in ObjectsOf(more)
    {
      assert cameraId in more && o in more[cameraId].Repr;
    }
  }

  lemma ProcessedEnds(num: Numerics, detect: Detector, w: WorkerState, items: seq<Item>)
    requires w.Shape()
    ensures ProcessItems(num, detect, w, items[..0]) == w
    ensures items[..|items|] == items
  {
  }

  lemma ProcessNext(num: Numerics, detect: Detector, w: WorkerState, items: seq<Item>, i: nat)
    requires w.Shape() && i < |items|
    ensures ProcessItems(num, detect, w, items[..i + 1])
         == Workers.ProcessItem(num, detect, ProcessItems(num, detect, w, items[..i]), items[i])
  {
    hide Workers.ProcessItem;
    assert items[..i + 1][..i] == items[..i];
  }

  lemma ProcessItemParts(num: Numerics, detect: Detector, w: WorkerState, item: Item)
    requires w.Shape()
    ensures var t := Workers.TrackerFor(w.trackers, item.frame.cameraId);
            var after := ThreeStages(num, t, detect(item.frame));
            Workers.ProcessItem(num, detect, w, item)
            == WorkerState(w.trackers[item.frame.cameraId := t][item.frame.cameraId := after],
                           w.log + Publications(Published(num, after.tracks, item.frame.frameId))
                           + [Ack(item.messageId)])
  {
    hide ThreeStages, Published, Publications;
  }

  method CreateTracker(cameraId: string) returns (tracker: ByteTracker)
    ensures fresh(tracker.Repr) && tracker.Valid() && tracker.cameraId == cameraId
    ensures tracker.Contents == NewTracker(cameraId)
  {
    var allocator := new TrackIdAllocator(cameraId);
    tracker := new ByteTracker(cameraId, allocator);
  }

  class InferenceWorker {
    var trackers: map<string, ByteTracker>
    const broker: BrokerClient
    const detector: Detectors.OnnxYoloDetector
    /** The frame loader: the image behind a frame's reference, if there is one. */
    const load: string -> Option<Detectors.Image>

    /** The trackers serve their cameras, share nothing, and own neither the worker nor the broker. */
    ghost predicate Valid()
      reads this, trackers.Values, ObjectsOf(trackers)
    {
      Serving(trackers) && Apart(trackers) && this !in ObjectsOf(trackers) && broker !in ObjectsOf(trackers)
    }

    ghost function TrackerValues(): map<string, Tracker>
      reads this, trackers.Values
    {
      ValuesOf(trackers)
    }

    ghost function Contents(): (w: WorkerState)
      requires Valid()
      reads this, broker, trackers.Values, ObjectsOf(trackers)
      ensures w.Shape()
    {
      WorkerState(TrackerValues(), broker.log)
    }

    ghost function Owned(): set<object>
      reads this, trackers.Values
    {
      ObjectsOf(trackers)
    }

    function Loads(): RawFrame -> bool {
      (frame: RawFrame) => load(frame.frameUri).Some?
    }

    /** The per-image detector applied to a frame; a frame without an image has no detections. */
    function Detect(): Workers.Detector {
      (frame: RawFrame) =>
        match load(frame.frameUri)
        case None => []
        case Some(image) => detector.DetectOne(frame.frameId, frame.cameraId, image)
    }

    /** What the worker's detector finds in a frame carries the frame's ids and comes from the frame's own image. */
    lemma DetectedInFrame(frame: RawFrame, i: nat) returns (image: Detectors.Image, c: Detectors.Candidate)
      requires i < |Detect()(frame)|
      ensures var d := Detect()(frame)[i];
              && load(frame.frameUri) == Some(image) && c in detector.infer(image)
              && d.frameId == frame.frameId && d.cameraId == frame.cameraId
              && Detectors.Reports(d, c, frame.frameId, frame.cameraId, detector.names)
    {
      hide Detectors.OnnxYoloDetector.DetectOne;
      image := load(frame.frameUri).value;
      c := detector.DetectedInImage(frame.frameId, frame.cameraId, image, i);
    }

    constructor (broker: BrokerClient, detector: Detectors.OnnxYoloDetector, load: string -> Option<Detectors.Image>)
      requires broker.log == []
      ensures Valid() && Contents() == FRESH
      ensures this.broker == broker && this.detector == detector && this.load == load
    {
      trackers := map[];
      this.broker := broker;
      this.detector := detector;
      this.load := load;
    }

    method StoreTracker(cameraId: string, tracker: ByteTracker)
      requires Valid() && cameraId !in trackers && tracker.Valid() && tracker.cameraId == cameraId
      requires Owned() !! tracker.Repr && this !in tracker.Repr && broker !in tracker.Repr
      modifies this`trackers
      ensures Valid() && cameraId in trackers
      ensures TrackerValues() == old(TrackerValues())[cameraId := tracker.Contents]
      ensures Owned() == old(Owned()) + tracker.Repr
    {
      hide ByteTracker.Valid, Serving, Apart, ObjectsOf, ValuesOf;
      OneMoreTracker(trackers, cameraId, tracker);
      trackers := trackers[cameraId := tracker];
    }

    /** _tracker_for: a camera's first frame creates its tracker. */
    method EnsureTracker(cameraId: string)
      requires Valid()
      modifies this`trackers
      ensures Valid() && cameraId in trackers
      ensures TrackerValues()
           == old(TrackerValues())[cameraId := Workers.TrackerFor(old(TrackerValues()), cameraId)]
      ensures fresh(Owned() - old(Owned()))
    {
      hide ByteTracker.Valid;
      if cameraId !in trackers {
        ghost var owned := Owned();
        var tracker := CreateTracker(cameraId);
        assert Owned() == owned && owned !! tracker.Repr;
        StoreTracker(cameraId, tracker);
      }
    }

    /** update on one camera's tracker; the others keep their state. */
    method UpdateTracker(num: Numerics, cameraId: string, detections: seq<Detection>, frameId: string)
      returns (output: seq<Track>)
      requires Valid() && cameraId in trackers
      modifies trackers[cameraId].Repr
      ensures Valid()
      ensures var after := ThreeStages(num, old(trackers[cameraId].Contents), detections);
              && TrackerValues() == old(TrackerValues())[cameraId := after]
              && output == Published(num, after.tracks, frameId)
      ensures trackers == old(trackers) && fresh(Owned() - old(Owned()))
    {
      hide ByteTracker.Valid, ThreeStages, Published;
      output := trackers[cameraId].Update(num, detections, frameId);
    }

    /** Fetch or create the camera's tracker and update it. */
    method AdvanceCamera(num: Numerics, cameraId: string, detections: seq<Detection>, frameId: string)
      returns (output: seq<Track>)
      requires Valid()
      modifies this`trackers, Owned()
      ensures Valid() && fresh(Owned() - old(Owned()))
      ensures broker.log == old(broker.log)
      ensures var t := Workers.TrackerFor(old(TrackerValues()), cameraId);
              var after := ThreeStages(num, t, detections);
              && TrackerValues() == old(TrackerValues())[cameraId := t][cameraId := after]
              && output == Published(num, after.tracks, frameId)
    {
      hide ByteTracker.Valid, ThreeStages, Published, Workers.TrackerFor;
      EnsureTracker(cameraId);
      assert trackers[cameraId].Contents == TrackerValues()[cameraId];
      output := UpdateTracker(num, cameraId, detections, frameId);
    }

    /** Publish every track of a frame, then ack the frame. */
    method SendFrame(output: seq<Track>, messageId: string)
      requires Valid()
      modifies broker
      ensures Valid() && TrackerValues() == old(TrackerValues()) && Owned() == old(Owned())
      ensures broker.log == old(broker.log) + Publications(output) + [Ack(messageId)]
    {
      hide ByteTracker.Valid;
      for i := 0 to |output|
        invariant broker.log == old(broker.log) + Publications(output)[..i]
      {
        broker.PublishTrack(output[i]);
      }
      assert Publications(output)[..|output|] == Publications(output);
      broker.AckMessage(messageId);
    }

    /** One iteration of the loop over a batch. */
    method HandleFrame(num: Numerics, ghost detect: Detector, item: Item, detections: seq<Detection>)
      requires Valid() && detections == detect(item.frame)
      modifies this`trackers, broker, Owned()
      ensures Valid() && fresh(Owned() - old(Owned()))
      ensures Contents() == Workers.ProcessItem(num, detect, old(Contents()), item)
    {
      hide ByteTracker.Valid, ThreeStages, Published, Publications, Workers.ProcessItem, Workers.TrackerFor;
      ProcessItemParts(num, detect, Contents(), item);
      var output := AdvanceCamera(num, item.frame.cameraId, detections, item.frame.frameId);
      hide InferenceWorker.Valid, InferenceWorker.TrackerValues, InferenceWorker.Owned;
      SendFrame(output, item.messageId);
    }

    /** The loop over a batch. */
    method HandleFrames(num: Numerics, ghost detect: Detector, items: seq<Item>, detections: seq<seq<Detection>>)
      requires Valid()
      requires |detections| == |items| && forall i | 0 <= i < |items| :: detections[i] == detect(items[i].frame)
      modifies this`trackers, broker, Owned()
      ensures Valid() && fresh(Owned() - old(Owned()))
      ensures Contents() == ProcessItems(num, detect, old(Contents()), items)
    {
      hide *;
      ghost var w, owned := Contents(), Owned();
      ProcessedEnds(num, detect, w, items);
      for i := 0 to |items|
        invariant Valid()
        invariant forall o | o in Owned() :: o in owned || fresh(o)
        invariant Contents() == ProcessItems(num, detect, w, items[..i])
      {
        ProcessNext(num, detect, w, items, i);
        ghost var before := Owned();
        label L:
        HandleFrame(num, detect, items[i], detections[i]);
        forall o | o in Owned()
          ensures o in owned || fresh(o)
        {
          assert o in before || fresh@L(o);
        }
      }
    }

    /** Loads the images of a batch; the first one that is missing is reported. */
    method LoadImages(items: seq<Item>) returns (images: Option<seq<Detectors.Image>>)
      ensures images.Some? <==> AllLoad(Loads(), items)
      ensures images.Some? ==>
                && |images.value| == |items|
                && forall i | 0 <= i < |items| :: load(items[i].frame.frameUri) == Some(images.value[i])
    {
      var loaded: seq<Detectors.Image> := [];
      for i := 0 to |items|
        invariant |loaded| == i && forall k | 0 <= k < i :: load(items[k].frame.frameUri) == Some(loaded[k])
      {
        match load(items[i].frame.frameUri) {
          case None =>
            assert !Loads()(items[i].frame);
            return None;
          case Some(image) =>
            loaded := loaded + [image];
        }
      }
      images := Some(loaded);
    }

    lemma BatchDetected(items: seq<Item>, images: seq<Detectors.Image>)
      requires |images| == |items|
      requires forall i | 0 <= i < |items| :: load(items[i].frame.frameUri) == Some(images[i])
      ensures forall i | 0 <= i < |items| ::
                var frame := items[i].frame;
                Detect()(frame) == detector.DetectOne(frame.frameId, frame.cameraId, images[i])
    {
      hide Detectors.OnnxYoloDetector.DetectOne;
    }

    /** _process_batch: load the whole batch, detect on it, then handle its frames in order. */
    method ProcessBatch(num: Numerics, items: seq<Item>) returns (ok: bool)
      requires Valid()
      modifies this`trackers, broker, Owned()
      ensures Valid() && fresh(Owned() - old(Owned()))
      ensures Outcome(Contents(), ok) == AfterBatch(num, Detect(), Loads(), Outcome(old(Contents()), true), items)
    {
      hide Workers.ProcessItems, ByteTracker.Valid, Detectors.OnnxYoloDetector.DetectOne, InferenceWorker.Detect,
        InferenceWorker.Loads, AllLoad;
      var images := LoadImages(items);
      if images.None? {
        return false;
      }
      BatchDetected(items, images.value);
      var frameIds := seq(|items|, i requires 0 <= i < |items| => items[i].frame.frameId);
      var cameraIds := seq(|items|, i requires 0 <= i < |items| => items[i].frame.cameraId);
      var detected := detector.DetectBatch(frameIds, cameraIds, images.value);
      HandleFrames(num, Detect(), items, detected.value);
      ok := true;
    }
  }
}
