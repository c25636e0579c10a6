// A camera's tracks as values: splitting detections, marking, ageing, creating and dropping tracks; and track ids.

module Trackers {
  import opened Collections
  import opened Boxes
  import opened Matching
  import opened Tracks
  import TrackIds

  predicate AllShaped(ts: seq<TrackRecord>) {
    forall i | 0 <= i < |ts| :: ts[i].Shape()
  }

  /** Live tracks in insertion order, and the id counter. */
  datatype Tracker = Tracker(cameraId: string, tracks: seq<TrackRecord>, counter: nat) {
    predicate Shape() {
      AllShaped(tracks)
    }
  }

  function NewTracker(cameraId: string): Tracker {
    Tracker(cameraId, [], 0)
  }

  // ---- Splitting the detections ----

  predicate IsHigh(d: Detection) {
    d.confidence >= HIGH_CONF_THRESHOLD
  }

  predicate IsLow(d: Detection) {
    LOW_CONF_THRESHOLD <= d.confidence < HIGH_CONF_THRESHOLD
  }

  function HighOf(ds: seq<Detection>): (hs: seq<Detection>)
    ensures forall i | 0 <= i < |hs| :: IsHigh(hs[i])
  {
    if ds == [] then [] else HighOf(ds[..|ds| - 1]) + (if IsHigh(ds[|ds| - 1]) then [ds[|ds| - 1]] else [])
  }

  function LowOf(ds: seq<Detection>): (ls: seq<Detection>)
    ensures forall i | 0 <= i < |ls| :: IsLow(ls[i])
  {
    if ds == [] then [] else LowOf(ds[..|ds| - 1]) + (if IsLow(ds[|ds| - 1]) then [ds[|ds| - 1]] else [])
  }

  function BoxesOf(ds: seq<Detection>): (bs: seq<Box>)
    ensures |bs| == |ds| && forall i | 0 <= i < |ds| :: bs[i] == ds[i].box
  {
    seq(|ds|, i requires 0 <= i < |ds| => ds[i].box)
  }

  // ---- Positions ----

  function Pick<T>(s: seq<T>, rows: seq<nat>): (p: seq<T>)
    requires Within(rows, |s|)
    ensures |p| == |rows| && forall r | 0 <= r < |rows| :: p[r] == s[rows[r]]
  {
    seq(|rows|, r requires 0 <= r < |rows| => s[rows[r]])
  }

  function CurrentBoxes(num: Numerics, ts: seq<TrackRecord>, rows: seq<nat>): (bs: seq<Box>)
    requires AllShaped(ts) && Within(rows, |ts|)
    ensures |bs| == |rows| && forall r | 0 <= r < |rows| :: bs[r] == ts[rows[r]].CurrentBox(num)
  {
    seq(|rows|, r requires 0 <= r < |rows| => ts[rows[r]].CurrentBox(num))
  }

  /** Of the given rows, those whose track is tentative. */
  function TentativeRows(ts: seq<TrackRecord>, rows: seq<nat>): (t: seq<nat>)
    requires Within(rows, |ts|)
    ensures Within(t, |ts|)
    ensures forall i: nat :: i in t <==> i in rows && ts[i].life.state == Tentative
  {
    if rows == [] then []
    else
      var last := rows[|rows| - 1];
      assert rows == rows[..|rows| - 1] + [last];
      TentativeRows(ts, rows[..|rows| - 1]) + (if ts[last].life.state == Tentative then [last] else [])
  }

  /** The high-confidence detections are those of at least 0.6, each once, in the order they came. */
  lemma {:induction false} HighOfIs(ds: seq<Detection>) returns (rows: seq<nat>)
    ensures Within(rows, |ds|) && Ascending(rows) && HighOf(ds) == Pick(ds, rows)
    ensures forall i: nat :: i in rows <==> i < |ds| && ds[i].confidence >= 0.6
  {
    if ds == [] {
      rows := [];
    } else {
      var last := |ds| - 1;
      rows := HighOfIs(ds[..last]);
      if ds[last].confidence >= 0.6 {
        rows := rows + [last];
      }
    }
  }

  /** The low-confidence detections are those from 0.1 to below 0.6, each once, in the order they came. */
  lemma {:induction false} LowOfIs(ds: seq<Detection>) returns (rows: seq<nat>)
    ensures Within(rows, |ds|) && Ascending(rows) && LowOf(ds) == Pick(ds, rows)
    ensures forall i: nat :: i in rows <==> i < |ds| && 0.1 <= ds[i].confidence < 0.6
  {
    if ds == [] {
      rows := [];
    } else {
      var last := |ds| - 1;
      rows := LowOfIs(ds[..last]);
      if 0.1 <= ds[last].confidence < 0.6 {
        rows := rows + [last];
      }
    }
  }

  // ---- The loops of update ----

  function AdvanceAll(ts: seq<TrackRecord>): (us: seq<TrackRecord>)
    requires AllShaped(ts)
    ensures |us| == |ts| && AllShaped(us)
    ensures forall i | 0 <= i < |ts| :: us[i] == Advanced(ts[i])
  {
    seq(|ts|, i requires 0 <= i < |ts| => Advanced(ts[i]))
  }

  predicate PairsFit(pairs: seq<Pair>, rows: nat, dets: nat) {
    forall p | 0 <= p < |pairs| :: pairs[p].0 < rows && pairs[p].1 < dets
  }

  /** mark_matched for every pair; a pair names a position in rows and a position in dets. */
  function MarkPairs(num: Numerics, ts: seq<TrackRecord>, rows: seq<nat>, pairs: seq<Pair>, dets: seq<Detection>)
    : (us: seq<TrackRecord>)
    requires AllShaped(ts) && Within(rows, |ts|) && PairsFit(pairs, |rows|, |dets|)
    ensures |us| == |ts| && AllShaped(us)
  {
    if pairs == [] then ts
    else
      var last := pairs[|pairs| - 1];
      var us := MarkPairs(num, ts, rows, pairs[..|pairs| - 1], dets);
      us[rows[last.0] := Matched(num, us[rows[last.0]], dets[last.1])]
  }

  function MatchedRows(rows: seq<nat>, pairs: seq<Pair>): set<nat>
    requires forall p | 0 <= p < |pairs| :: pairs[p].0 < |rows|
  {
    set p | 0 <= p < |pairs| :: rows[pairs[p].0]
  }

  /** mark_unmatched for every one of the first n tracks outside the matched set. */
  function MissOthers(ts: seq<TrackRecord>, matched: set<nat>): (us: seq<TrackRecord>)
    requires AllShaped(ts)
    ensures |us| == |ts| && AllShaped(us)
    ensures forall i | 0 <= i < |ts| :: us[i] == if i in matched then ts[i] else Unmatched(ts[i])
  {
    seq(|ts|, i requires 0 <= i < |ts| => if i in matched then ts[i] else Unmatched(ts[i]))
  }

  /** New tracks for the given detections, numbered from counter + 1. */
  function SpawnAll(cameraId: string, counter: nat, ds: seq<Detection>): (ts: seq<TrackRecord>)
    ensures |ts| == |ds| && AllShaped(ts)
    ensures forall i | 0 <= i < |ds| :: ts[i] == Spawned(TrackIds.Format(cameraId, counter + i + 1), cameraId, ds[i])
  {
    seq(|ds|, i requires 0 <= i < |ds| => Spawned(TrackIds.Format(cameraId, counter + i + 1), cameraId, ds[i]))
  }

  /** The tracks that the clean-up keeps, in order. */
  function Survivors(ts: seq<TrackRecord>): (us: seq<TrackRecord>)
    ensures |us| <= |ts|
    ensures forall t :: t in us <==> t in ts && !Dropped(t.life)
    ensures AllShaped(ts) ==> AllShaped(us)
  {
    if ts == [] then []
    else
      var last := ts[|ts| - 1];
      assert ts == ts[..|ts| - 1] + [last];
      Survivors(ts[..|ts| - 1]) + (if Dropped(last.life) then [] else [last])
  }

  /** The rows the clean-up keeps, ascending. */
  function AliveRows(ts: seq<TrackRecord>): (rows: seq<nat>)
    ensures Within(rows, |ts|) && Ascending(rows)
    ensures forall i: nat :: i in rows <==> i < |ts| && !Dropped(ts[i].life)
  {
    if ts == [] then []
    else
      var last := |ts| - 1;
      var rows := AliveRows(ts[..last]);
      rows + (if Dropped(ts[last].life) then [] else [last])
  }

  lemma {:induction false} SurvivorsArePicked(ts: seq<TrackRecord>)
    ensures Survivors(ts) == Pick(ts, AliveRows(ts))
  {
    if ts != [] {
      SurvivorsArePicked(ts[..|ts| - 1]);
    }
  }

  function Published(num: Numerics, ts: seq<TrackRecord>, frameId: string): (out: seq<Track>)
    requires AllShaped(ts)
    ensures |out| == |ts| && forall i | 0 <= i < |ts| :: out[i] == ts[i].ToTrack(num, frameId)
  {
    seq(|ts|, i requires 0 <= i < |ts| => ts[i].ToTrack(num, frameId))
  }
}

/** Track ids: camera id, dash, decimal counter. */
module TrackIds {
  function Digit(d: nat): char
    requires d < 10
  {
    "0123456789"[d]
  }

  function Decimal(n: nat): (s: string)
    ensures |s| > 0
  {
    if n < 10 then [Digit(n)] else Decimal(n / 10) + [Digit(n % 10)]
  }

  function Format(cameraId: string, n: nat): string {
    cameraId + "-" + Decimal(n)
  }

  /** The number a decimal text denotes, read from the left. */
  function Denoted(s: string): int {
    if s == "" then 0 else 10 * Denoted(s[..|s| - 1]) + (s[|s| - 1] as int - '0' as int)
  }

  /** Only decimal digits, and no leading zero but in zero itself. */
  predicate IsNumeral(s: string) {
    s != "" && (forall k | 0 <= k < |s| :: '0' <= s[k] <= '9') && (s[0] == '0' ==> |s| == 1)
  }

  lemma DigitDenotes(d: nat)
    requires d < 10
    ensures '0' <= Digit(d) <= '9' && Digit(d) as int - '0' as int == d
  {
  }

  /** The decimal text of a number denotes it. */
  lemma {:induction false} DecimalDenotes(n: nat)
    ensures IsNumeral(Decimal(n)) && Denoted(Decimal(n)) == n && (n > 0 ==> Decimal(n)[0] != '0')
  {
    DigitDenotes(n % 10);
    if n >= 10 {
      DecimalDenotes(n / 10);
      var s := Decimal(n);
      assert s[..|s| - 1] == Decimal(n / 10);
    } else {
      assert Decimal(n)[..0] == "";
    }
    hide Digit;
  }

  lemma DigitInjective(a: nat, b: nat)
    requires a < 10 && b < 10 && Digit(a) == Digit(b)
    ensures a == b
  {
  }

  lemma {:induction false} DecimalHasNoDash(n: nat)
    ensures '-' !in Decimal(n)
  {
    if n >= 10 {
      DecimalHasNoDash(n / 10);
    }
  }

  lemma {:induction false} DecimalInjective(a: nat, b: nat)
    requires Decimal(a) == Decimal(b)
    ensures a == b
  {
    var s, t := Decimal(a), Decimal(b);
    if a < 10 || b < 10 {
      assert |s| == 1 <==> a < 10;
      assert |t| == 1 <==> b < 10;
      DigitInjective(a, b);
    } else {
      assert s[..|s| - 1] == Decimal(a / 10) && t[..|t| - 1] == Decimal(b / 10);
      assert s[|s| - 1] == Digit(a % 10) && t[|t| - 1] == Digit(b % 10);
      DecimalInjective(a / 10, b / 10);
      DigitInjective(a % 10, b % 10);
    }
  }

  /** The position of the last dash. */
  function LastDash(s: string): (k: int)
    ensures -1 <= k < |s|
    ensures k >= 0 ==> s[k] == '-'
    ensures forall i | k < i < |s| :: s[i] != '-'
  {
    if s == "" then -1
    else if s[|s| - 1] == '-' then |s| - 1
    else LastDash(s[..|s| - 1])
  }

  /** A track id splits back into its camera id and its counter at its last dash. */
  lemma SplitAtLastDash(cameraId: string, n: nat)
    ensures var id := Format(cameraId, n);
            var k := LastDash(id);
            k >= 0 && id[..k] == cameraId && id[k + 1..] == Decimal(n)
  {
    var id := Format(cameraId, n);
    DecimalHasNoDash(n);
    assert id[|cameraId|] == '-';
    forall i | |cameraId| < i < |id|
      ensures id[i] != '-'
    {
      assert id[i] == Decimal(n)[i - |cameraId| - 1];
    }
  }

  /** Ids of one deployment never collide: camera and counter are both recovered from the text. */
  lemma FormatInjective(c1: string, n1: nat, c2: string, n2: nat)
    requires Format(c1, n1) == Format(c2, n2)
    ensures c1 == c2 && n1 == n2
  {
    SplitAtLastDash(c1, n1);
    SplitAtLastDash(c2, n2);
    DecimalInjective(n1, n2);
  }
}
