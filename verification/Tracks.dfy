// Detections, tracks and their lifecycle, as values.

module Tracks {
  import opened LinearAlgebra
  import opened DenseFilter
  import opened BoxFilters
  import opened Boxes
  import opened Assignments

  const HIGH_CONF_THRESHOLD := 0.6
  const LOW_CONF_THRESHOLD := 0.1
  const MATCH_IOU_THRESHOLD := 0.3
  const LOW_CONF_MATCH_IOU_THRESHOLD := 0.5
  const UNCONFIRMED_MATCH_IOU_THRESHOLD := 0.7
  const MAX_LOST_FRAMES := 30
  const MIN_HITS_TO_CONFIRM := 3

  datatype TrackState = Tentative | Confirmed | Lost | Removed

  datatype Detection = Detection(frameId: string, cameraId: string, box: Box,
                                 classId: int, className: string, confidence: real)

  /** The published view of a track. */
  datatype Track = Track(trackId: string, cameraId: string, frameId: string, box: Box,
                         classId: int, className: string, confidence: real,
                         state: TrackState, hits: nat, ageFrames: nat)

  /** The foreign numerical routines the tracker relies on. */
  datatype Numerics = Numerics(solver: Solver, inverse: Inverter, sqrt: real -> real)

  /** The lifecycle counters of a track. */
  datatype Life = Life(state: TrackState, hits: nat, age: nat, sinceUpdate: nat)

  const NEWBORN := Life(Tentative, 1, 1, 0)

  function Aged(l: Life): Life {
    l.(age := l.age + 1)
  }

  function HitLife(l: Life): Life {
    var hits := l.hits + 1;
    var state :=
      if l.state == Lost then Confirmed
      else if l.state == Tentative && hits >= MIN_HITS_TO_CONFIRM then Confirmed
      else l.state;
    Life(state, hits, l.age, 0)
  }

  function MissLife(l: Life): Life {
    var since := l.sinceUpdate + 1;
    var state :=
      if l.state == Confirmed then Lost
      else if l.state == Tentative && since > 0 then Removed
      else l.state;
    Life(state, l.hits, l.age, since)
  }

  predicate Dropped(l: Life) {
    l.state == Removed || l.sinceUpdate > MAX_LOST_FRAMES
  }

  /** Everything an STrack holds. */
  datatype TrackRecord = TrackRecord(trackId: string, cameraId: string, classId: int, className: string,
                                     confidence: real, life: Life, filter: State) {
    predicate Shape() {
      filter.Shape()
    }

    function CurrentBox(num: Numerics): Box
      requires Shape()
    {
      ToBox(num.sqrt, filter.x)
    }

    function ToTrack(num: Numerics, frameId: string): Track
      requires Shape()
    {
      Track(trackId, cameraId, frameId, CurrentBox(num), classId, className, confidence,
            life.state, life.hits, life.age)
    }
  }

  function Spawned(trackId: string, cameraId: string, d: Detection): (t: TrackRecord)
    ensures t.Shape()
  {
    TrackRecord(trackId, cameraId, d.classId, d.className, d.confidence, NEWBORN, Initial(Measurement(d.box)))
  }

  function Advanced(t: TrackRecord): (u: TrackRecord)
    requires t.Shape()
    ensures u.Shape()
  {
    t.(filter := Predict(t.filter), life := Aged(t.life))
  }

  function Matched(num: Numerics, t: TrackRecord, d: Detection): (u: TrackRecord)
    requires t.Shape()
    ensures u.Shape()
  {
    t.(filter := Update(num.inverse, t.filter, Measurement(d.box)), life := HitLife(t.life), confidence := d.confidence)
  }

  function Unmatched(t: TrackRecord): (u: TrackRecord)
    ensures t.Shape() ==> u.Shape()
  {
    t.(life := MissLife(t.life))
  }
}
