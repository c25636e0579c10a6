// The dynamic batcher: one loop over a queue, a pending batch and the time its first item was taken.

module Batchers {
  import opened RealFacts
  import opened Wrappers
  import opened Collections

  const MAX_POLL_INTERVAL := 0.1

  /** The loop's local variables and the batches handed on so far. */
  datatype Loop<T> = Loop(pending: seq<T>, startedAt: Option<real>, flushed: seq<seq<T>>)

  /** Time until the pending batch must go, never negative; none while nothing is pending. */
  function TimeLeft(maxWait: real, startedAt: Option<real>, reading: real): (left: Option<real>)
    ensures left.Some? <==> startedAt.Some?
    ensures left.Some? ==> left.value >= 0.0 && (left.value <= 0.0 <==> reading >= startedAt.value + maxWait)
  {
    match startedAt
    case None => None
    case Some(at) => Some(Max(0.0, maxWait - (reading - at)))
  }

  /** The timeout of the next queue read. */
  function Timeout(maxWait: real, startedAt: Option<real>, reading: real, cap: real): (t: real)
    requires cap >= 0.0
    ensures 0.0 <= t <= cap
  {
    match TimeLeft(maxWait, startedAt, reading)
    case None => cap
    case Some(left) => Min(left, cap)
  }

  function Flush<T>(l: Loop<T>): Loop<T> {
    Loop([], None, if l.pending != [] then l.flushed + [l.pending] else l.flushed)
  }

  /** The loop body after the queue yielded an item; the clock is read if it is the first one. */
  function OnItem<T>(max: nat, l: Loop<T>, item: T, reading: real): Loop<T> {
    var taken := Loop(l.pending + [item], if l.pending == [] then Some(reading) else l.startedAt, l.flushed);
    if |taken.pending| >= max then Flush(taken) else taken
  }

  /** The loop body after the queue read timed out. */
  function OnEmpty<T>(maxWait: real, l: Loop<T>, reading: real): Loop<T>
    requires l.pending != [] ==> l.startedAt.Some?
  {
    if l.pending != [] && TimeLeft(maxWait, l.startedAt, reading).value <= 0.0 then Flush(l) else l
  }

  // ---- What every step keeps ----

  predicate Sized<T>(bs: seq<seq<T>>, max: nat) {
    forall k | 0 <= k < |bs| :: 0 < |bs[k]| <= max
  }

  /** Between iterations: a start time exactly while something is pending, and no batch empty or too large. */
  ghost predicate Sound<T>(l: Loop<T>, max: nat) {
    (l.pending != [] <==> l.startedAt.Some?) && |l.pending| < max && Sized(l.flushed, max)
  }

  /** Everything taken from the queue, in order. */
  function Taken<T>(l: Loop<T>): seq<T> {
    Concat(l.flushed) + l.pending
  }

  lemma FlushKeeps<T>(l: Loop<T>, max: nat)
    requires Sized(l.flushed, max) && |l.pending| <= max && max >= 1
    ensures Sound(Flush(l), max) && Taken(Flush(l)) == Taken(l) == Concat(Flush(l).flushed)
  {
    ConcatMore(l.flushed, l.pending);
  }

  lemma ItemKeeps<T>(max: nat, l: Loop<T>, item: T, reading: real)
    requires Sound(l, max) && max >= 1
    ensures Sound(OnItem(max, l, item, reading), max) && Taken(OnItem(max, l, item, reading)) == Taken(l) + [item]
  {
    var taken := Loop(l.pending + [item], if l.pending == [] then Some(reading) else l.startedAt, l.flushed);
    FlushKeeps(taken, max);
  }

  lemma EmptyKeeps<T>(maxWait: real, max: nat, l: Loop<T>, reading: real)
    requires Sound(l, max) && max >= 1
    ensures Sound(OnEmpty(maxWait, l, reading), max) && Taken(OnEmpty(maxWait, l, reading)) == Taken(l)
  {
    FlushKeeps(l, max);
  }

  // ---- Any environment ----

  /** One iteration as the environment shapes it: whether stop was set before the test, what other threads
      submitted before the queue read returned, and the clock before and after that read. */
  datatype Moment<T> = Moment(stop: bool, arrivals: seq<T>, asked: real, got: real)

  /** The loop together with the shared queue. */
  datatype Machine<T> = Machine(queue: seq<T>, inner: Loop<T>)

  function Iterate<T>(maxWait: real, max: nat, m: Machine<T>, e: Moment<T>): Machine<T>
    requires Sound(m.inner, max)
  {
    var q := m.queue + e.arrivals;
    if q != [] then Machine(q[1..], OnItem(max, m.inner, q[0], e.got))
    else Machine(q, OnEmpty(maxWait, m.inner, e.got))
  }

  lemma IterateKeeps<T>(maxWait: real, max: nat, m: Machine<T>, e: Moment<T>)
    requires Sound(m.inner, max)
    ensures Sound(Iterate(maxWait, max, m, e).inner, max)
    ensures Taken(Iterate(maxWait, max, m, e).inner) + Iterate(maxWait, max, m, e).queue
            == Taken(m.inner) + m.queue + e.arrivals
  {
    var q := m.queue + e.arrivals;
    if q != [] {
      ItemKeeps(max, m.inner, q[0], e.got);
      assert Taken(m.inner) + [q[0]] + q[1..] == Taken(m.inner) + q;
    } else {
      EmptyKeeps(maxWait, max, m.inner, e.got);
    }
    hide Taken, OnItem, OnEmpty, Sound;
  }

  /** The loop until stop is seen or the schedule ends. */
  function Ran<T>(maxWait: real, max: nat, m: Machine<T>, es: seq<Moment<T>>): Machine<T>
    requires Sound(m.inner, max)
    decreases |es|
  {
    if es == [] || es[0].stop then m
    else
      IterateKeeps(maxWait, max, m, es[0]);
      Ran(maxWait, max, Iterate(maxWait, max, m, es[0]), es[1..])
  }

  /** Everything submitted before the loop saw stop. */
  function Submitted<T>(es: seq<Moment<T>>): seq<T> {
    if es == [] || es[0].stop then [] else es[0].arrivals + Submitted(es[1..])
  }

  lemma Regroup<T>(a: seq<T>, b: seq<T>, c: seq<T>)
    ensures a + b + c == a + (b + c)
  {
  }

  /** Nothing is lost, doubled or reordered, under every interleaving. */
  lemma {:induction false} RunKeeps<T>(maxWait: real, max: nat, m: Machine<T>, es: seq<Moment<T>>)
    requires Sound(m.inner, max)
    ensures var r := Ran(maxWait, max, m, es);
            Sound(r.inner, max) && Taken(r.inner) + r.queue == Taken(m.inner) + m.queue + Submitted(es)
    decreases |es|
  {
    hide Iterate, Taken, Sound;
    if es != [] && !es[0].stop {
      IterateKeeps(maxWait, max, m, es[0]);
      var next := Iterate(maxWait, max, m, es[0]);
      RunKeeps(maxWait, max, next, es[1..]);
      Regroup(Taken(m.inner) + m.queue, es[0].arrivals, Submitted(es[1..]));
    } else {
      assert Taken(m.inner) + m.queue + [] == Taken(m.inner) + m.queue;
    }
  }

  /** After the loop the rest is flushed: exactly what was taken has been handed on, in sound batches. */
  lemma ExitFlushesAllTaken<T>(maxWait: real, max: nat, m: Machine<T>, es: seq<Moment<T>>)
    requires Sound(m.inner, max)
    ensures var r := Ran(maxWait, max, m, es);
            && Sized(Flush(r.inner).flushed, max)
            && Concat(Flush(r.inner).flushed) + r.queue == Taken(m.inner) + m.queue + Submitted(es)
  {
    RunKeeps(maxWait, max, m, es);
    FlushKeeps(Ran(maxWait, max, m, es).inner, max);
  }

  lemma IterateOnlyAdds<T>(maxWait: real, max: nat, m: Machine<T>, e: Moment<T>)
    requires Sound(m.inner, max)
    ensures m.inner.flushed <= Iterate(maxWait, max, m, e).inner.flushed
  {
  }

  lemma {:induction false} RunOnlyAdds<T>(maxWait: real, max: nat, m: Machine<T>, es: seq<Moment<T>>)
    requires Sound(m.inner, max)
    ensures m.inner.flushed <= Ran(maxWait, max, m, es).inner.flushed
    decreases |es|
  {
    if es != [] && !es[0].stop {
      IterateKeeps(maxWait, max, m, es[0]);
      IterateOnlyAdds(maxWait, max, m, es[0]);
      RunOnlyAdds(maxWait, max, Iterate(maxWait, max, m, es[0]), es[1..]);
      hide Iterate, Sound;
    }
  }

  /** Past the deadline an iteration flushes, or takes an item and keeps the deadline. */
  lemma LateIteration<T>(maxWait: real, max: nat, m: Machine<T>, e: Moment<T>)
    requires Sound(m.inner, max) && m.inner.pending != [] && e.got >= m.inner.startedAt.value + maxWait
    ensures var r := Iterate(maxWait, max, m, e).inner;
            || |r.flushed| == |m.inner.flushed| + 1
            || (r.flushed == m.inner.flushed && r.startedAt == m.inner.startedAt
                && |r.pending| == |m.inner.pending| + 1)
  {
  }

  /** Past the deadline a running loop flushes within as many iterations as the batch has room left. */
  lemma {:induction false} LateBatchIsFlushed<T>(maxWait: real, max: nat, m: Machine<T>, es: seq<Moment<T>>)
    requires Sound(m.inner, max) && m.inner.pending != [] && |es| == max - |m.inner.pending|
    requires forall k | 0 <= k < |es| :: !es[k].stop && es[k].got >= m.inner.startedAt.value + maxWait
    ensures |Ran(maxWait, max, m, es).inner.flushed| > |m.inner.flushed|
    decreases |es|
  {
    IterateKeeps(maxWait, max, m, es[0]);
    LateIteration(maxWait, max, m, es[0]);
    var next := Iterate(maxWait, max, m, es[0]);
    if |next.inner.flushed| == |m.inner.flushed| + 1 {
      RunOnlyAdds(maxWait, max, next, es[1..]);
    } else {
      assert |next.inner.pending| < max;
      LateBatchIsFlushed(maxWait, max, next, es[1..]);
    }
    hide Iterate;
  }

  class DynamicBatcher<T> {
    const maxBatchSize: nat
    const maxWait: real
    var queue: seq<T>
    var stopped: bool
    /** Every batch handed to the callback, in order. */
    var batches: seq<seq<T>>

    constructor (maxBatchSize: nat, maxWait: real)
      requires maxBatchSize >= 1
      ensures this.maxBatchSize == maxBatchSize && this.maxWait == maxWait
      ensures queue == [] && !stopped && batches == []
    {
      this.maxBatchSize := maxBatchSize;
      this.maxWait := maxWait;
      queue, stopped, batches := [], false, [];
    }

    static method Create(maxBatchSize: int, maxWaitMs: int) returns (r: Result<DynamicBatcher<T>>)
      ensures r.ValueError? <==> maxBatchSize < 1 || maxWaitMs < 0
      ensures r.Ok? ==> fresh(r.value) && r.value.maxBatchSize == maxBatchSize
                        && r.value.maxWait == maxWaitMs as real / 1000.0 && r.value.maxWait >= 0.0
                        && r.value.queue == [] && !r.value.stopped && r.value.batches == []
    {
      if maxBatchSize < 1 {
        return ValueError("max_batch_size must be >= 1");
      }
      if maxWaitMs < 0 {
        return ValueError("max_wait_ms must be >= 0");
      }
      var b := new DynamicBatcher<T>(maxBatchSize, maxWaitMs as real / 1000.0);
      r := Ok(b);
    }

    method Submit(item: T)
      modifies this`queue
      ensures queue == old(queue) + [item]
    {
      queue := queue + [item];
    }

    method Stop()
      modifies this`stopped
      ensures stopped
    {
      stopped := true;
    }

    /** A queue read during which these items arrive; a negative timeout would be an error. */
    method Get(timeout: real, arrivals: seq<T>) returns (item: Option<T>)
      requires timeout >= 0.0
      modifies this`queue
      ensures item == if old(queue) + arrivals == [] then None else Some((old(queue) + arrivals)[0])
      ensures queue == if old(queue) + arrivals == [] then [] else (old(queue) + arrivals)[1..]
    {
      queue := queue + arrivals;
      if queue == [] {
        item := None;
      } else {
        item := Some(queue[0]);
        queue := queue[1..];
      }
    }

    method HandOn(pending: seq<T>)
      modifies this`batches
      ensures batches == Flush(Loop(pending, None, old(batches))).flushed
    {
      if pending != [] {
        batches := batches + [pending];
      }
    }

    /** One pass through the loop body. */
    method Turn(e: Moment<T>, pending: seq<T>, startedAt: Option<real>) returns (p: seq<T>, at: Option<real>)
      requires maxBatchSize >= 1 && Sound(Loop(pending, startedAt, batches), maxBatchSize)
      modifies this`queue, this`batches
      ensures Machine(queue, Loop(p, at, batches))
              == Iterate(maxWait, maxBatchSize, Machine(old(queue), Loop(pending, startedAt, old(batches))), e)
    {
      p, at := pending, startedAt;
      var item := Get(Timeout(maxWait, startedAt, e.asked, MAX_POLL_INTERVAL), e.arrivals);
      match item {
        case None =>
          if p != [] && TimeLeft(maxWait, at, e.got).value <= 0.0 {
            HandOn(p);
            p, at := [], None;
          }
        case Some(x) =>
          if p == [] {
            at := Some(e.got);
          }
          p := p + [x];
          if |p| >= maxBatchSize {
            HandOn(p);
            p, at := [], None;
          }
      }
    }

    /** The loop, in an environment that shapes each iteration; the schedule ends when stop is seen. */
    method Run(es: seq<Moment<T>>)
      requires maxBatchSize >= 1 && Sized(batches, maxBatchSize)
      modifies this
      ensures var r := Ran(maxWait, maxBatchSize, Machine(old(queue), Loop([], None, old(batches))),
                           if old(stopped) then [] else es);
              queue == r.queue && batches == Flush(r.inner).flushed
      ensures Sized(batches, maxBatchSize)
      ensures Concat(batches) + queue
              == Concat(old(batches)) + old(queue) + if old(stopped) then [] else Submitted(es)
    {
      ghost var first, schedule := Machine(queue, Loop([], None, batches)), if stopped then [] else es;
      ghost var end := Ran(maxWait, maxBatchSize, first, schedule);
      ExitFlushesAllTaken(maxWait, maxBatchSize, first, schedule);
      assert Taken(first.inner) == Concat(batches);
      assert Submitted(schedule) == if stopped then [] else Submitted(es);
      var pending: seq<T>, startedAt: Option<real> := [], None;
      var i := 0;
      assert es[0..] == es;
      hide Iterate, Taken, Concat, Sized;
      while i < |es| && !stopped
        invariant 0 <= i <= |es|
        invariant Sound(Loop(pending, startedAt, batches), maxBatchSize)
        invariant Ran(maxWait, maxBatchSize, Machine(queue, Loop(pending, startedAt, batches)),
                      if stopped then [] else es[i..]) == end
      {
        if es[i].stop {
          Stop();
          break;
        }
        IterateKeeps(maxWait, maxBatchSize, Machine(queue, Loop(pending, startedAt, batches)), es[i]);
        assert es[i..][0] == es[i] && es[i..][1..] == es[i + 1..];
        pending, startedAt := Turn(es[i], pending, startedAt);
        i := i + 1;
      }
      HandOn(pending);
    }
  }
}
