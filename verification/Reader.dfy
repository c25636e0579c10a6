// The rate-capped reader: reconnects, drops frames that come too early, numbers the rest.

module Readers {
  import opened RealFacts
  import opened Wrappers
  import opened Collections

  const BACKOFF_BASE := 2.0
  const BACKOFF_MAX := 30.0

  /**
   * What the environment does in one pass of the loop: whether opening would work, what a read would give, and what
   * the monotonic and the wall clock show.
   */
  datatype Turn<F> = Turn(opens: bool, read: Option<F>, at: real, wall: real)

  /** A yielded frame, with the monotonic time at which it was read. */
  datatype Captured<F> = Captured(image: F, sequenceNumber: nat, at: real, capturedAtMs: int)

  /** Seconds to whole milliseconds, cut off towards zero. */
  function Milliseconds(wall: real): int {
    if wall >= 0.0 then (wall * 1000.0).Floor else -(-wall * 1000.0).Floor
  }

  /** The whole number of milliseconds next to the clock reading, on the side of zero. */
  lemma MillisecondsCutOff(wall: real)
    ensures wall >= 0.0 ==> Milliseconds(wall) as real <= wall * 1000.0 < Milliseconds(wall) as real + 1.0
    ensures wall <= 0.0 ==> Milliseconds(wall) as real - 1.0 < wall * 1000.0 <= Milliseconds(wall) as real
  {
  }

  /** The reader's fields and the loop's local variables, with what it has yielded and slept. */
  datatype State<F> = State(connected: bool, sequence: nat, attempt: nat, last: Option<real>,
                            emitted: seq<Captured<F>>, sleeps: seq<real>)

  function Delay(attempt: nat): real {
    Min(BACKOFF_BASE * Power(2.0, attempt), BACKOFF_MAX)
  }

  /** A frame read at this time is far enough from the last one yielded. */
  predicate Due(interval: real, last: Option<real>, now: real) {
    last.Some? ==> now - last.value >= interval
  }

  function Step<F>(interval: real, r: State<F>, e: Turn<F>): State<F> {
    if !r.connected && !e.opens then
      r.(sleeps := r.sleeps + [Delay(r.attempt)], attempt := r.attempt + 1)
    else
      var c := r.(connected := true, attempt := if r.connected then r.attempt else 0);
      if e.read.None? then c.(connected := false)
      else if !Due(interval, r.last, e.at) then c
      else c.(last := Some(e.at), sequence := r.sequence + 1,
              emitted := r.emitted + [Captured(e.read.value, r.sequence + 1, e.at, Milliseconds(e.wall))])
  }

  function Run<F>(interval: real, r: State<F>, es: seq<Turn<F>>): State<F> {
    if es == [] then r else Step(interval, Run(interval, r, es[..|es| - 1]), es[|es| - 1])
  }

  class RtspFrameReader<F> {
    const interval: real
    var connected: bool
    var sequenceNumber: nat

    constructor (fpsCap: int)
      requires fpsCap != 0
      ensures interval == 1.0 / fpsCap as real && !connected && sequenceNumber == 0
    {
      interval := 1.0 / fpsCap as real;
      connected, sequenceNumber := false, 0;
    }

    /** Opens the source; an unreachable one is reported. */
    method Connect(opens: bool) returns (ok: bool)
      modifies this`connected
      ensures ok == opens && connected == (old(connected) || opens)
    {
      ok := opens;
      if opens {
        connected := true;
      }
    }

    /** The generator's loop over an environment; what it yields and sleeps is returned. */
    method Frames(es: seq<Turn<F>>) returns (emitted: seq<Captured<F>>, sleeps: seq<real>)
      modifies this
      ensures var r := Run(interval, State(old(connected), old(sequenceNumber), 0, None, [], []), es);
              && connected == r.connected && sequenceNumber == r.sequence
              && emitted == r.emitted && sleeps == r.sleeps
    {
      ghost var start: State<F> := State(connected, sequenceNumber, 0, None, [], []);
      var attempt: nat, last: Option<real> := 0, None;
      emitted, sleeps := [], [];
      for i := 0 to |es|
        invariant State(connected, sequenceNumber, attempt, last, emitted, sleeps) == Run(interval, start, es[..i])
      {
        assert es[..i + 1][..i] == es[..i];
        if !connected {
          var ok := Connect(es[i].opens);
          if !ok {
            sleeps := sleeps + [Delay(attempt)];
            attempt := attempt + 1;
            continue;
          }
          attempt := 0;
        }
        match es[i].read {
          case None =>
            connected := false;
          case Some(image) =>
            if last.Some? && es[i].at - last.value < interval {
              continue;
            }
            last := Some(es[i].at);
            sequenceNumber := sequenceNumber + 1;
            emitted := emitted + [Captured(image, sequenceNumber, es[i].at, Milliseconds(es[i].wall))];
        }
      }
      assert es[..|es|] == es;
    }

    method Close()
      modifies this`connected
      ensures !connected
    {
      connected := false;
    }
  }

  // ---- Which frames are read, whatever the cap ----

  datatype Frame<F> = Frame(image: F, at: real, wall: real)

  /** The frames that come off the source, across reconnects. */
  function Reads<F>(connected: bool, es: seq<Turn<F>>): seq<Frame<F>>
    decreases |es|
  {
    if es == [] then []
    else if !connected && !es[0].opens then Reads(false, es[1..])
    else if es[0].read.None? then Reads(false, es[1..])
    else [Frame(es[0].read.value, es[0].at, es[0].wall)] + Reads(true, es[1..])
  }

  /** The positions of the frames kept when each is kept as soon as it is due. */
  function Greedy(interval: real, last: Option<real>, ats: seq<real>, lo: nat): seq<nat>
    requires lo <= |ats|
    decreases |ats| - lo
  {
    if lo == |ats| then []
    else if Due(interval, last, ats[lo]) then [lo] + Greedy(interval, Some(ats[lo]), ats, lo + 1)
    else Greedy(interval, last, ats, lo + 1)
  }

  predicate Monotone(ats: seq<real>) {
    forall i, j | 0 <= i < j < |ats| :: ats[i] <= ats[j]
  }

  /** A choice of positions from lo on whose consecutive times, and the first from the given one, are spaced. */
  predicate Spaced(interval: real, last: Option<real>, ats: seq<real>, lo: nat, ks: seq<nat>) {
    && Ascending(ks)
    && (forall i | 0 <= i < |ks| :: lo <= ks[i] < |ats|)
    && (ks != [] && last.Some? ==> ats[ks[0]] - last.value >= interval)
    && (forall i | 0 < i < |ks| :: ats[ks[i]] - ats[ks[i - 1]] >= interval)
  }

  lemma SpacedFront(interval: real, last: Option<real>, ats: seq<real>, lo: nat, ks: seq<nat>)
    requires lo < |ats| && Due(interval, last, ats[lo]) && Spaced(interval, Some(ats[lo]), ats, lo + 1, ks)
    ensures Spaced(interval, last, ats, lo, [lo] + ks)
  {
  }

  lemma {:induction false} GreedyIsSpaced(interval: real, last: Option<real>, ats: seq<real>, lo: nat)
    requires lo <= |ats|
    ensures Spaced(interval, last, ats, lo, Greedy(interval, last, ats, lo))
    decreases |ats| - lo
  {
    if lo < |ats| {
      if Due(interval, last, ats[lo]) {
        GreedyIsSpaced(interval, Some(ats[lo]), ats, lo + 1);
        SpacedFront(interval, last, ats, lo, Greedy(interval, Some(ats[lo]), ats, lo + 1));
      } else {
        GreedyIsSpaced(interval, last, ats, lo + 1);
      }
    }
  }

  /** No other spaced choice keeps more frames. */
  lemma {:induction false} GreedyIsOptimal(interval: real, last: Option<real>, ats: seq<real>, lo: nat, ks: seq<nat>)
    requires interval >= 0.0 && Monotone(ats) && lo <= |ats| && Spaced(interval, last, ats, lo, ks)
    ensures |ks| <= |Greedy(interval, last, ats, lo)|
    decreases |ats| - lo
  {
    if ks != [] {
      if Due(interval, last, ats[lo]) {
        var rest := ks[1..];
        assert rest != [] ==> rest[0] == ks[1] && ks[1] > ks[0];
        assert forall i | 0 < i < |rest| :: rest[i] == ks[i + 1] && rest[i - 1] == ks[i];
        GreedyIsOptimal(interval, Some(ats[lo]), ats, lo + 1, rest);
      } else {
        assert ks[0] != lo;
        GreedyIsOptimal(interval, last, ats, lo + 1, ks);
      }
    }
  }

  // ---- The loop keeps the greedy choice ----

  function Moments<F>(all: seq<Frame<F>>): (ats: seq<real>)
    ensures |ats| == |all| && forall i | 0 <= i < |all| :: ats[i] == all[i].at
  {
    seq(|all|, i requires 0 <= i < |all| => all[i].at)
  }

  function CapturedFrom<F>(f: Frame<F>, number: nat): Captured<F> {
    Captured(f.image, number, f.at, Milliseconds(f.wall))
  }

  /** The chosen frames, numbered upwards from the given count. */
  function Numbered<F>(all: seq<Frame<F>>, ks: seq<nat>, count: nat): (cs: seq<Captured<F>>)
    requires Within(ks, |all|)
    ensures |cs| == |ks|
    ensures forall i | 0 <= i < |ks| :: cs[i] == CapturedFrom(all[ks[i]], count + i + 1)
  {
    seq(|ks|, i requires 0 <= i < |ks| => CapturedFrom(all[ks[i]], count + i + 1))
  }

  lemma {:induction false} RunFront<F>(interval: real, r: State<F>, es: seq<Turn<F>>)
    requires es != []
    ensures Run(interval, r, es) == Run(interval, Step(interval, r, es[0]), es[1..])
  {
    hide Step;
    var last := |es| - 1;
    if last > 0 {
      RunFront(interval, r, es[..last]);
      assert es[..last][1..] == es[1..][..last - 1];
    } else {
      assert es[..0] == [];
    }
  }

  lemma GreedyWithin(interval: real, last: Option<real>, ats: seq<real>, lo: nat)
    requires lo <= |ats|
    ensures Within(Greedy(interval, last, ats, lo), |ats|)
  {
    GreedyIsSpaced(interval, last, ats, lo);
  }

  /** The frames kept from position lo on, numbered upwards. */
  function Kept<F>(interval: real, last: Option<real>, all: seq<Frame<F>>, lo: nat, count: nat): seq<Captured<F>>
    requires lo <= |all|
  {
    GreedyWithin(interval, last, Moments(all), lo);
    Numbered(all, Greedy(interval, last, Moments(all), lo), count)
  }

  lemma KeptFront<F>(interval: real, last: Option<real>, all: seq<Frame<F>>, lo: nat, count: nat)
    requires lo < |all|
    ensures Kept(interval, last, all, lo, count) ==
            if Due(interval, last, all[lo].at) then
              [CapturedFrom(all[lo], count + 1)] + Kept(interval, Some(all[lo].at), all, lo + 1, count + 1)
            else Kept(interval, last, all, lo + 1, count)
  {
    hide Due, CapturedFrom, Spaced;
    GreedyWithin(interval, Some(all[lo].at), Moments(all), lo + 1);
    GreedyWithin(interval, last, Moments(all), lo + 1);
  }

  /** No frames are left: nothing more is kept, and an empty run changes nothing. */
  lemma NothingKept<F>(interval: real, last: Option<real>, all: seq<Frame<F>>, count: nat)
    ensures Kept(interval, last, all, |all|, count) == []
    ensures forall r: State<F> :: Run(interval, r, []) == r
  {
  }

  predicate NoFrame<F>(connected: bool, e: Turn<F>) {
    (!connected && !e.opens) || e.read.None?
  }

  lemma StepCases<F>(interval: real, r: State<F>, e: Turn<F>)
    ensures var next := Step(interval, r, e);
            && next.connected == !NoFrame(r.connected, e)
            && (NoFrame(r.connected, e) || !Due(interval, r.last, e.at) ==>
                  (next.last, next.sequence, next.emitted) == (r.last, r.sequence, r.emitted))
            && (!NoFrame(r.connected, e) && Due(interval, r.last, e.at) ==>
                  (next.last, next.sequence, next.emitted)
                  == (Some(e.at), r.sequence + 1,
                      r.emitted + [Captured(e.read.value, r.sequence + 1, e.at, Milliseconds(e.wall))]))
  {
  }

  lemma ReadsFront<F>(connected: bool, es: seq<Turn<F>>)
    requires es != []
    ensures Reads(connected, es) ==
            if NoFrame(connected, es[0]) then Reads(false, es[1..])
            else [Frame(es[0].read.value, es[0].at, es[0].wall)] + Reads(true, es[1..])
  {
  }

  /** Turn i reads a frame: the read succeeds, and the source is open already or opens now. */
  predicate ReadAt<F>(connected: bool, es: seq<Turn<F>>, i: nat)
    requires i < |es|
  {
    es[i].read.Some? && (es[i].opens || if i == 0 then connected else ReadAt(connected, es, i - 1))
  }

  lemma {:induction false} ReadAtFront<F>(connected: bool, es: seq<Turn<F>>, i: nat)
    requires i + 1 < |es|
    ensures ReadAt(connected, es, i + 1) <==> ReadAt(ReadAt(connected, es, 0), es[1..], i)
  {
    if i > 0 {
      ReadAtFront(connected, es, i - 1);
    }
  }

  function FrameOf<F>(e: Turn<F>): Frame<F>
    requires e.read.Some?
  {
    Frame(e.read.value, e.at, e.wall)
  }

  lemma RowsBehind(first: bool, rest: seq<nat>, rows: seq<nat>, i: nat)
    requires rows == (if first then [0] else []) + seq(|rest|, r requires 0 <= r < |rest| => rest[r] + 1)
    ensures i in rows <==> if i == 0 then first else i - 1 in rest
  {
    var moved := seq(|rest|, r requires 0 <= r < |rest| => rest[r] + 1);
    if i > 0 && i - 1 in rest {
      var r :| 0 <= r < |rest| && rest[r] == i - 1;
      assert moved[r] == i;
    }
  }

  /** The frames read are those of the turns that read one, each once, in order. */
  lemma {:induction false} ReadsAre<F>(connected: bool, es: seq<Turn<F>>) returns (rows: seq<nat>)
    ensures Within(rows, |es|) && Ascending(rows) && |Reads(connected, es)| == |rows|
    ensures forall i: nat :: i in rows <==> i < |es| && ReadAt(connected, es, i)
    ensures forall r | 0 <= r < |rows| ::
              es[rows[r]].read.Some? && Reads(connected, es)[r] == FrameOf(es[rows[r]])
    decreases |es|
  {
    if es == [] {
      rows := [];
    } else {
      var first := ReadAt(connected, es, 0);
      var rest := ReadsAre(first, es[1..]);
      rows := (if first then [0] else []) + seq(|rest|, r requires 0 <= r < |rest| => rest[r] + 1);
      forall i: nat
        ensures i in rows <==> i < |es| && ReadAt(connected, es, i)
      {
        if 0 < i < |es| {
          ReadAtFront(connected, es, i - 1);
        }
        RowsBehind(first, rest, rows, i);
      }
    }
  }

  lemma DropFront<T>(all: seq<T>, lo: nat, x: T, rest: seq<T>)
    requires lo <= |all| && all[lo..] == [x] + rest
    ensures lo < |all| && all[lo] == x && all[lo + 1..] == rest
  {
    assert all[lo] == all[lo..][0];
    assert all[lo + 1..] == all[lo..][1..];
  }

  lemma NothingRead<F>(connected: bool)
    ensures Reads<F>(connected, []) == []
  {
  }

  /** From any state, the loop yields the greedy choice among the frames still to be read, across reconnects. */
  lemma {:induction false} YieldsGreedy<F>(interval: real, r: State<F>, es: seq<Turn<F>>, all: seq<Frame<F>>, lo: nat)
    requires lo <= |all| && all[lo..] == Reads(r.connected, es)
    ensures var ks := Kept(interval, r.last, all, lo, r.sequence);
            Run(interval, r, es).emitted == r.emitted + ks && Run(interval, r, es).sequence == r.sequence + |ks|
    decreases |es|
  {
    hide Run, Step, Kept, Reads, Due;
    if es == [] {
      NothingRead<F>(r.connected);
      NothingKept(interval, r.last, all, r.sequence);
    } else {
      RunFront(interval, r, es);
      StepCases(interval, r, es[0]);
      ReadsFront(r.connected, es);
      var next := Step(interval, r, es[0]);
      if NoFrame(r.connected, es[0]) {
        YieldsGreedy(interval, next, es[1..], all, lo);
      } else {
        DropFront(all, lo, Frame(es[0].read.value, es[0].at, es[0].wall), Reads(true, es[1..]));
        KeptFront(interval, r.last, all, lo, r.sequence);
        YieldsGreedy(interval, next, es[1..], all, lo + 1);
      }
    }
  }

  function Fresh<F>(sequence: nat): State<F> {
    State(false, sequence, 0, None, [], [])
  }

  /** What one iteration over frames yields. */
  function Yielded<F>(interval: real, sequence: nat, es: seq<Turn<F>>): seq<Captured<F>> {
    Run(interval, Fresh(sequence), es).emitted
  }

  lemma YieldsChoice<F>(interval: real, sequence: nat, es: seq<Turn<F>>)
    ensures var all := Reads(false, es);
            var ks := Greedy(interval, None, Moments(all), 0);
            && Spaced(interval, None, Moments(all), 0, ks) && Within(ks, |all|)
            && Yielded(interval, sequence, es) == Numbered(all, ks, sequence)
  {
    YieldsGreedy(interval, Fresh(sequence), es, Reads(false, es), 0);
    GreedyIsSpaced(interval, None, Moments(Reads(false, es)), 0);
  }

  /** Sequence numbers rise by one, without gaps or repetitions, whatever happens to the connection. */
  lemma NumbersRiseByOne<F>(interval: real, sequence: nat, es: seq<Turn<F>>)
    ensures forall k | 0 <= k < |Yielded(interval, sequence, es)| ::
              Yielded(interval, sequence, es)[k].sequenceNumber == sequence + k + 1
  {
    YieldsChoice(interval, sequence, es);
    hide Yielded, Reads, Greedy, Moments;
  }

  lemma NeighboursAreSpaced<F>(interval: real, sequence: nat, es: seq<Turn<F>>, k: nat)
    requires 0 < k < |Yielded(interval, sequence, es)|
    ensures Yielded(interval, sequence, es)[k].at - Yielded(interval, sequence, es)[k - 1].at >= interval
  {
    YieldsChoice(interval, sequence, es);
    hide Yielded, Reads, Greedy;
  }

  /** Frames j - i apart in the output are at least that many intervals apart in time. */
  lemma {:induction false} FramesAreSpaced<F>(interval: real, sequence: nat, es: seq<Turn<F>>, i: nat, j: nat)
    requires i <= j < |Yielded(interval, sequence, es)|
    ensures Yielded(interval, sequence, es)[j].at - Yielded(interval, sequence, es)[i].at >= (j - i) as real * interval
    decreases j
  {
    if i < j {
      FramesAreSpaced(interval, sequence, es, i, j - 1);
      NeighboursAreSpaced(interval, sequence, es, j);
      hide Yielded;
      assert (j - i) as real * interval == (j - 1 - i) as real * interval + interval;
    }
  }

  /** A window of length t holds at most 1 + t * fps frames. */
  lemma WindowHoldsFew<F>(fps: nat, sequence: nat, es: seq<Turn<F>>, i: nat, j: nat, t: real)
    requires fps > 0
    requires i <= j < |Yielded(1.0 / fps as real, sequence, es)|
    requires Yielded(1.0 / fps as real, sequence, es)[j].at - Yielded(1.0 / fps as real, sequence, es)[i].at <= t
    ensures (j - i + 1) as real <= 1.0 + t * fps as real
  {
    var interval := 1.0 / fps as real;
    FramesAreSpaced(interval, sequence, es, i, j);
    hide Yielded;
    assert interval * fps as real == 1.0;
    var n := (j - i) as real;
    assert n * interval * fps as real == n * (interval * fps as real);
    assert n * interval <= t;
    assert (n * interval) * fps as real <= t * fps as real;
  }

  /** No other choice of the frames read, spaced as far, yields more. */
  lemma NothingMoreToGain<F>(interval: real, sequence: nat, es: seq<Turn<F>>, ks: seq<nat>)
    requires interval >= 0.0 && Monotone(Moments(Reads(false, es)))
    requires Spaced(interval, None, Moments(Reads(false, es)), 0, ks)
    ensures |ks| <= |Yielded(interval, sequence, es)|
  {
    YieldsChoice(interval, sequence, es);
    GreedyIsOptimal(interval, None, Moments(Reads(false, es)), 0, ks);
  }

  // ---- Backoff ----

  /** ReconnectDelays start at the base, never fall while the source stays away, and never exceed the maximum. */
  lemma DelaysAreBounded(n: nat)
    ensures BACKOFF_BASE <= Delay(n) <= Delay(n + 1) <= BACKOFF_MAX && Delay(0) == BACKOFF_BASE
  {
    PowerGrows(2.0, n);
  }

  /** Each delay is twice the one before, until the cap is reached. */
  lemma DelayDoubles(n: nat)
    ensures Delay(n + 1) == if 2.0 * Delay(n) <= 30.0 then 2.0 * Delay(n) else 30.0
    ensures Delay(0) == 2.0
  {
    PowerGrows(2.0, n);
  }

  function ReconnectDelays(attempt: nat, n: nat): (ds: seq<real>)
    ensures |ds| == n && forall k | 0 <= k < n :: ds[k] == Delay(attempt + k)
  {
    seq(n, k requires 0 <= k < n => Delay(attempt + k))
  }

  /** An unreachable source is retried after each delay in turn; nothing is yielded and nothing is forgotten. */
  lemma {:induction false} Outage<F>(interval: real, r: State<F>, es: seq<Turn<F>>)
    requires !r.connected && forall k | 0 <= k < |es| :: !es[k].opens
    ensures Run(interval, r, es)
         == r.(attempt := r.attempt + |es|, sleeps := r.sleeps + ReconnectDelays(r.attempt, |es|))
  {
    hide Delay;
    if es != [] {
      Outage(interval, r, es[..|es| - 1]);
      assert ReconnectDelays(r.attempt, |es|) == ReconnectDelays(r.attempt, |es| - 1) + [Delay(r.attempt + |es| - 1)];
    }
  }

  lemma {:induction false} ConnectedRetriesAfresh<F>(interval: real, sequence: nat, es: seq<Turn<F>>)
    ensures var r := Run(interval, Fresh(sequence), es); r.connected ==> r.attempt == 0
  {
    hide Delay;
    if es != [] {
      ConnectedRetriesAfresh(interval, sequence, es[..|es| - 1]);
    }
  }

  lemma {:induction false} RunAppend<F>(interval: real, r: State<F>, es: seq<Turn<F>>, fs: seq<Turn<F>>)
    ensures Run(interval, r, es + fs) == Run(interval, Run(interval, r, es), fs)
  {
    hide Step;
    if fs == [] {
      assert es + fs == es;
    } else {
      RunAppend(interval, r, es, fs[..|fs| - 1]);
      assert (es + fs)[..|es + fs| - 1] == es + fs[..|fs| - 1];
    }
  }

  /** A connection that is had and lost makes the delays of the outage that follows start from the first again. */
  lemma DelaysRestart<F>(interval: real, sequence: nat, es: seq<Turn<F>>, e: Turn<F>, outage: seq<Turn<F>>)
    requires (Run(interval, Fresh(sequence), es).connected || e.opens) && e.read.None?
    requires forall k | 0 <= k < |outage| :: !outage[k].opens
    ensures Run(interval, Fresh(sequence), es + [e] + outage).sleeps
         == Run(interval, Fresh(sequence), es).sleeps + ReconnectDelays(0, |outage|)
  {
    ConnectedRetriesAfresh(interval, sequence, es);
    RunAppend(interval, Fresh(sequence), es + [e], outage);
    assert (es + [e])[..|es|] == es;
    Outage(interval, Run(interval, Fresh(sequence), es + [e]), outage);
  }
}
