// What a worker sends: acknowledgements in order, each after its frame's tracks, and what those tracks say.

module WorkerOutputs {
  import opened Tracks
  import opened Trackers
  import opened Frames
  import opened TrackerRuns
  import opened TrackStories
  import opened Workers

  /** The messages a log acknowledges, in order. */
  function AckedIn(log: seq<Effect>): seq<string> {
    if log == [] then []
    else
      var rest := AckedIn(log[..|log| - 1]);
      match log[|log| - 1]
      case Publish(_) => rest
      case Ack(id) => rest + [id]
  }

  function MessageIds(items: seq<Item>): (ids: seq<string>)
    ensures |ids| == |items| && forall k | 0 <= k < |items| :: ids[k] == items[k].messageId
  {
    seq(|items|, k requires 0 <= k < |items| => items[k].messageId)
  }

  lemma {:induction false} AckedInAppend(a: seq<Effect>, b: seq<Effect>)
    ensures AckedIn(a + b) == AckedIn(a) + AckedIn(b)
  {
    if b == [] {
      assert a + b == a;
    } else {
      assert (a + b)[..|a + b| - 1] == a + b[..|b| - 1];
      AckedInAppend(a, b[..|b| - 1]);
    }
  }

  lemma {:induction false} NothingAckedIn(tracks: seq<Track>)
    ensures AckedIn(Publications(tracks)) == []
  {
    if tracks != [] {
      NothingAckedIn(tracks[..|tracks| - 1]);
      assert Publications(tracks)[..|tracks| - 1] == Publications(tracks[..|tracks| - 1]);
    }
  }

  /** One frame's part of the log: publications, then its acknowledgement. */
  lemma ItemLog(num: Numerics, detect: Detector, w: WorkerState, item: Item) returns (output: seq<Track>)
    requires w.Shape()
    ensures ProcessItem(num, detect, w, item).log == w.log + Publications(output) + [Ack(item.messageId)]
  {
    output := FrameOutput(num, detect, TrackerFor(w.trackers, item.frame.cameraId), item.frame);
    hide FrameOutput, NextTracker, Publications;
  }

  /** Before its acknowledgement a frame's part of the log acknowledges nothing, and publishes all the frame gives. */
  lemma ItemBeforeAck(log: seq<Effect>, output: seq<Track>, id: string, cameraId: string)
    ensures var all := log + Publications(output) + [Ack(id)];
            && all[|all| - 1] == Ack(id)
            && AckedIn(all[..|all| - 1]) == AckedIn(log) && AckedIn(all) == AckedIn(log) + [id]
            && PublishedFor(all[..|all| - 1], cameraId) == PublishedFor(all, cameraId)
  {
    var all := log + Publications(output) + [Ack(id)];
    assert all[..|all| - 1] == log + Publications(output);
    AckedInAppend(log, Publications(output));
    NothingAckedIn(output);
    hide Publications;
  }

  lemma LastItemLog(num: Numerics, detect: Detector, items: seq<Item>, cameraId: string)
    requires items != []
    ensures var before, item := items[..|items| - 1], items[|items| - 1];
            var was, log := ProcessItems(num, detect, FRESH, before).log, ProcessItems(num, detect, FRESH, items).log;
            && was <= log && log != [] && log[|log| - 1] == Ack(item.messageId)
            && AckedIn(log) == AckedIn(was) + [item.messageId] && AckedIn(log[..|log| - 1]) == AckedIn(was)
            && PublishedFor(log[..|log| - 1], cameraId) == PublishedFor(log, cameraId)
  {
    hide ProcessItem, AckedIn, PublishedFor, Publications;
    var w, item := ProcessItems(num, detect, FRESH, items[..|items| - 1]), items[|items| - 1];
    var output := ItemLog(num, detect, w, item);
    ItemBeforeAck(w.log, output, item.messageId, cameraId);
  }

  lemma NothingYet(num: Numerics, detect: Detector)
    ensures AckedIn(ProcessItems(num, detect, FRESH, []).log) == MessageIds([])
  {
  }

  lemma {:induction false} AcksAreMessages(num: Numerics, detect: Detector, items: seq<Item>)
    ensures AckedIn(ProcessItems(num, detect, FRESH, items).log) == MessageIds(items)
  {
    hide ProcessItems, AckedIn, PublishedFor;
    if items == [] {
      NothingYet(num, detect);
    } else {
      AcksAreMessages(num, detect, items[..|items| - 1]);
      LastItemLog(num, detect, items, "");
    }
  }

  /** Processing more only appends to the log. */
  lemma {:induction false} LogGrows(num: Numerics, detect: Detector, items: seq<Item>, k: nat)
    requires k <= |items|
    ensures ProcessItems(num, detect, FRESH, items[..k]).log <= ProcessItems(num, detect, FRESH, items).log
  {
    hide ProcessItems, AckedIn, PublishedFor;
    if k == |items| {
      assert items[..k] == items;
    } else {
      LogGrows(num, detect, items[..|items| - 1], k);
      assert items[..|items| - 1][..k] == items[..k];
      LastItemLog(num, detect, items, "");
    }
  }

  /**
   * Every message is acknowledged, once and in order, and at that point of the log the frames up to its own have
   * published for every camera all that the camera's lone tracker returns on them, and no later frame has anything.
   */
  lemma AckAfterPublications(num: Numerics, detect: Detector, items: seq<Item>, k: nat, cameraId: string)
      returns (n: nat)
    requires k < |items|
    ensures var log := ProcessItems(num, detect, FRESH, items).log;
            && n < |log| && log[n] == Ack(items[k].messageId)
            && AckedIn(log[..n]) == MessageIds(items[..k]) && AckedIn(log) == MessageIds(items)
            && PublishedFor(log[..n], cameraId) == LoneOutput(num, detect, cameraId, FramesOf(items[..k + 1], cameraId))
  {
    hide ProcessItems, AckedIn, PublishedFor, LoneOutput, LoneTracker, FramesOf;
    var upTo := items[..k + 1];
    var part := ProcessItems(num, detect, FRESH, upTo).log;
    assert upTo[..|upTo| - 1] == items[..k];
    LastItemLog(num, detect, upTo, cameraId);
    AcksAreMessages(num, detect, items);
    AcksAreMessages(num, detect, items[..k]);
    LogGrows(num, detect, items, k + 1);
    CamerasAreIndependent(num, detect, upTo, cameraId);
    n := |part| - 1;
    assert ProcessItems(num, detect, FRESH, items).log[..n] == part[..n];
  }

  // ---- What the published tracks say ----

  function DetectionsOf(detect: Detector, frames: seq<RawFrame>): (ds: seq<seq<Detection>>)
    ensures |ds| == |frames| && forall k | 0 <= k < |frames| :: ds[k] == detect(frames[k])
  {
    seq(|frames|, k requires 0 <= k < |frames| => detect(frames[k]))
  }

  /** The lone tracker's run is the plain run on what the detector finds in the frames. */
  lemma {:induction false} LoneIsPlain(num: Numerics, detect: Detector, cameraId: string, frames: seq<RawFrame>)
    ensures LoneTracker(num, detect, cameraId, frames) == PlainRun(num, cameraId, DetectionsOf(detect, frames))
  {
    hide ThreeStages;
    if frames != [] {
      var ds := DetectionsOf(detect, frames);
      LoneIsPlain(num, detect, cameraId, frames[..|frames| - 1]);
      assert ds[..|ds| - 1] == DetectionsOf(detect, frames[..|frames| - 1]);
    }
  }

  lemma LoneOutputMore(num: Numerics, detect: Detector, cameraId: string, frames: seq<RawFrame>)
    requires frames != []
    ensures LoneOutput(num, detect, cameraId, frames)
         == LoneOutput(num, detect, cameraId, frames[..|frames| - 1])
            + Published(num, PlainRun(num, cameraId, DetectionsOf(detect, frames)).tracks, frames[|frames| - 1].frameId)
  {
    LoneIsPlain(num, detect, cameraId, frames);
    hide NextTracker, Published, PlainRun;
  }

  /** The published track is track i after frame k of the camera, and shows its story, made of those frames. */
  predicate PublishedAt(num: Numerics, detect: Detector, cameraId: string, frames: seq<RawFrame>, out: Track, k: nat,
                        i: nat)
    requires k < |frames|
  {
    var run := DetectionsOf(detect, frames[..k + 1]);
    var told, log := ToldRun(num, cameraId, run), LoggedRun(num, cameraId, run);
    && i < |told.stories| && i < |log.serials|
    && Shows(num, cameraId, out, frames[k].frameId, log.serials[i], told.stories[i])
    && FromFrames(told.stories[i], run)
  }

  lemma LastFrameTells(num: Numerics, detect: Detector, cameraId: string, frames: seq<RawFrame>, i: nat)
    requires frames != [] && i < |PlainRun(num, cameraId, DetectionsOf(detect, frames)).tracks|
    ensures var last := |frames| - 1;
            var tracks := PlainRun(num, cameraId, DetectionsOf(detect, frames)).tracks;
            var out := Published(num, tracks, frames[last].frameId);
            PublishedAt(num, detect, cameraId, frames, out[i], last, i)
  {
    hide PlainRun, ToldRun, LoggedRun, Shows, FromFrames, Tells, HitsOf, TrackRecord.ToTrack;
    var run := DetectionsOf(detect, frames);
    assert frames[..|frames| - 1 + 1] == frames;
    LiveTracksTell(num, cameraId, run, i);
    PublishedTracksShow(num, cameraId, run, frames[|frames| - 1].frameId, i);
  }

  lemma EarlierFrame(num: Numerics, detect: Detector, cameraId: string, frames: seq<RawFrame>, out: Track, k: nat,
                     i: nat)
    requires k < |frames| - 1 && PublishedAt(num, detect, cameraId, frames[..|frames| - 1], out, k, i)
    ensures PublishedAt(num, detect, cameraId, frames, out, k, i)
  {
    hide ToldRun, LoggedRun, Shows, FromFrames;
    assert frames[..|frames| - 1][..k + 1] == frames[..k + 1];
  }

  lemma {:induction false} LoneOutputTells(num: Numerics, detect: Detector, cameraId: string, frames: seq<RawFrame>,
                                           x: nat)
      returns (k: nat, i: nat)
    requires x < |LoneOutput(num, detect, cameraId, frames)|
    ensures k < |frames|
    ensures PublishedAt(num, detect, cameraId, frames, LoneOutput(num, detect, cameraId, frames)[x], k, i)
  {
    hide PublishedAt, PlainRun, TrackRecord.ToTrack, FrameOutput, LoneTracker;
    LoneOutputMore(num, detect, cameraId, frames);
    var last := |frames| - 1;
    var before := LoneOutput(num, detect, cameraId, frames[..last]);
    if x < |before| {
      k, i := LoneOutputTells(num, detect, cameraId, frames[..last], x);
      EarlierFrame(num, detect, cameraId, frames, before[x], k, i);
    } else {
      k, i := last, x - |before|;
      LastFrameTells(num, detect, cameraId, frames, i);
    }
  }

  /** Every track a worker publishes for a camera shows the story of a live track over that camera's frames so far. */
  lemma PublishedTracksTell(num: Numerics, detect: Detector, items: seq<Item>, cameraId: string, x: nat)
      returns (k: nat, i: nat)
    requires x < |PublishedFor(ProcessItems(num, detect, FRESH, items).log, cameraId)|
    ensures k < |FramesOf(items, cameraId)|
    ensures PublishedAt(num, detect, cameraId, FramesOf(items, cameraId),
                        PublishedFor(ProcessItems(num, detect, FRESH, items).log, cameraId)[x], k, i)
  {
    hide ProcessItems, PublishedFor, LoneOutput, LoneTracker, FramesOf, PublishedAt, TrackerFor;
    CamerasAreIndependent(num, detect, items, cameraId);
    k, i := LoneOutputTells(num, detect, cameraId, FramesOf(items, cameraId), x);
  }
}
