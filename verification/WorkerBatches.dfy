// The batcher in front of the worker: what is processed under every schedule, and what one missing image changes.

module WorkerBatches {
  import opened Wrappers
  import opened Collections
  import opened Tracks
  import opened Workers
  import Batchers

  // ---- Every schedule of the batcher ----

  /** What the batcher has taken from its queue: everything submitted but the rest of the queue. */
  function TakenItems(submitted: seq<Item>, queue: seq<Item>): seq<Item>
    requires |queue| <= |submitted|
  {
    submitted[..|submitted| - |queue|]
  }

  const IDLE: Batchers.Machine<Item> := Batchers.Machine([], Batchers.Loop([], None, []))

  lemma PrefixBefore(a: seq<Item>, b: seq<Item>, all: seq<Item>)
    requires a + b == all
    ensures |b| <= |all| && TakenItems(all, b) == a
  {
  }

  lemma IdleIsSound(max: nat)
    requires max >= 1
    ensures Batchers.Sound(IDLE.inner, max) && Batchers.Taken(IDLE.inner) + IDLE.queue == []
  {
  }

  /**
   * Whatever the arrivals, timeouts and clock readings, once the loop has ended the worker has done exactly what it
   * does for the items taken from the queue, one at a time in the order of their submission.
   */
  lemma ScheduleIsTransparent(num: Numerics, detect: Detector, maxWait: real, max: nat, es: seq<Batchers.Moment<Item>>)
    requires max >= 1
    ensures Batchers.Sound(IDLE.inner, max)
    ensures var r, all := Batchers.Ran(maxWait, max, IDLE, es), Batchers.Submitted(es);
            && |r.queue| <= |all|
            && ProcessBatches(num, detect, FRESH, Batchers.Flush(r.inner).flushed)
               == ProcessItems(num, detect, FRESH, TakenItems(all, r.queue))
  {
    IdleIsSound(max);
    Batchers.ExitFlushesAllTaken(maxWait, max, IDLE, es);
    hide Batchers.Ran, Batchers.Submitted, Batchers.Flush, Batchers.Taken, ProcessItems, ProcessBatches;
    var r, all := Batchers.Ran(maxWait, max, IDLE, es), Batchers.Submitted(es);
    var batches := Batchers.Flush(r.inner).flushed;
    assert [] + all == all;
    PrefixBefore(Concat(batches), r.queue, all);
    BatchingIsTransparent(num, detect, FRESH, batches);
  }

  // ---- Missing images ----

  /** The worker and whether its thread still runs. */
  datatype Outcome = Outcome(state: WorkerState, alive: bool)

  /** All images of a batch can be loaded. */
  predicate AllLoad(loads: RawFrame -> bool, items: seq<Item>) {
    forall i | 0 <= i < |items| :: loads(items[i].frame)
  }

  /** One batch: its images are loaded before anything else, and a missing one ends the thread. */
  function AfterBatch(num: Numerics, detect: Detector, loads: RawFrame -> bool, o: Outcome, batch: seq<Item>)
    : (r: Outcome)
    requires o.state.Shape()
    ensures r.state.Shape()
  {
    if !o.alive then o
    else if AllLoad(loads, batch) then Outcome(ProcessItems(num, detect, o.state, batch), true)
    else Outcome(o.state, false)
  }

  function AfterBatches(num: Numerics, detect: Detector, loads: RawFrame -> bool, w: WorkerState,
                        batches: seq<seq<Item>>)
    : (r: Outcome)
    requires w.Shape()
    ensures r.state.Shape()
  {
    if batches == [] then Outcome(w, true)
    else
      var last := |batches| - 1;
      AfterBatch(num, detect, loads, AfterBatches(num, detect, loads, w, batches[..last]), batches[last])
  }

  /** The number of batches before the first one with a missing image. */
  function Unharmed(loads: RawFrame -> bool, batches: seq<seq<Item>>): (n: nat)
    ensures n <= |batches|
    ensures forall b | 0 <= b < n :: AllLoad(loads, batches[b])
    ensures n < |batches| ==> !AllLoad(loads, batches[n])
  {
    if batches == [] then 0
    else
      var last := |batches| - 1;
      var n := Unharmed(loads, batches[..last]);
      if n == last && AllLoad(loads, batches[last]) then n + 1 else n
  }

  /** The worker processes exactly the batches before the first one with a missing image. */
  lemma {:induction false} OnlyUnharmed(num: Numerics, detect: Detector, loads: RawFrame -> bool, w: WorkerState,
                                        batches: seq<seq<Item>>)
    requires w.Shape()
    ensures var n := Unharmed(loads, batches);
            AfterBatches(num, detect, loads, w, batches)
            == Outcome(ProcessItems(num, detect, w, Concat(batches[..n])), n == |batches|)
  {
    hide ProcessItem, AllLoad;
    if batches == [] {
      assert Concat<Item>([]) == [];
    } else {
      var last := |batches| - 1;
      OnlyUnharmed(num, detect, loads, w, batches[..last]);
      var n := Unharmed(loads, batches[..last]);
      assert batches[..last][..n] == batches[..n];
      if n == last && AllLoad(loads, batches[last]) {
        assert batches[..n + 1] == batches[..n] + [batches[n]];
        ConcatMore(batches[..n], batches[n]);
        ProcessConcatenation(num, detect, w, Concat(batches[..n]), batches[n]);
        assert batches[..|batches|] == batches;
      }
    }
  }

  // ---- Batches against one frame at a time ----

  /** Every frame a batch of its own. */
  function Singles(items: seq<Item>): (bs: seq<seq<Item>>)
    ensures |bs| == |items| && forall i | 0 <= i < |items| :: bs[i] == [items[i]]
  {
    seq(|items|, i requires 0 <= i < |items| => [items[i]])
  }

  lemma {:induction false} ConcatSingles(items: seq<Item>)
    ensures Concat(Singles(items)) == items
  {
    if items == [] {
      assert Concat(Singles([])) == [];
    } else {
      var last := |items| - 1;
      ConcatSingles(items[..last]);
      assert Singles(items)[..last] == Singles(items[..last]);
      assert items == items[..last] + [items[last]];
    }
  }

  lemma OneMoreEffect(num: Numerics, detect: Detector, w: WorkerState, item: Item)
    requires w.Shape()
    ensures |ProcessItem(num, detect, w, item).log| > |w.log|
  {
    hide NextTracker, FrameOutput;
  }

  /** Every processed frame leaves at least its acknowledgement. */
  lemma {:induction false} LogGrows(num: Numerics, detect: Detector, w: WorkerState, items: seq<Item>)
    requires w.Shape()
    ensures |ProcessItems(num, detect, w, items).log| >= |w.log| + |items|
  {
    if items != [] {
      LogGrows(num, detect, w, items[..|items| - 1]);
      OneMoreEffect(num, detect, ProcessItems(num, detect, w, items[..|items| - 1]), items[|items| - 1]);
      hide ProcessItem;
    }
  }

  /** Processing a longer list is never the same. */
  lemma LongerDiffers(num: Numerics, detect: Detector, w: WorkerState, a: seq<Item>, b: seq<Item>)
    requires w.Shape() && b != []
    ensures ProcessItems(num, detect, w, a + b) != ProcessItems(num, detect, w, a)
  {
    ProcessConcatenation(num, detect, w, a, b);
    LogGrows(num, detect, ProcessItems(num, detect, w, a), b);
    hide ProcessItems;
  }

  /** The number of frames before the first missing image. */
  function Loadable(loads: RawFrame -> bool, items: seq<Item>): nat {
    Unharmed(loads, Singles(items))
  }

  lemma LoadableIs(loads: RawFrame -> bool, items: seq<Item>)
    ensures var x := Loadable(loads, items);
            && x <= |items|
            && (forall i | 0 <= i < x :: loads(items[i].frame))
            && (x < |items| ==> !loads(items[x].frame))
  {
    var x := Loadable(loads, items);
    forall i | 0 <= i < x
      ensures loads(items[i].frame)
    {
      assert AllLoad(loads, Singles(items)[i]) && Singles(items)[i][0] == items[i];
    }
  }

  /** One frame at a time, everything before the first missing image is processed. */
  lemma OneByOne(num: Numerics, detect: Detector, loads: RawFrame -> bool, w: WorkerState, items: seq<Item>)
    requires w.Shape()
    ensures var x := Loadable(loads, items);
            && x <= |items|
            && AfterBatches(num, detect, loads, w, Singles(items))
               == Outcome(ProcessItems(num, detect, w, items[..x]), x == |items|)
  {
    var x := Loadable(loads, items);
    hide ProcessItems, AfterBatches, Unharmed;
    OnlyUnharmed(num, detect, loads, w, Singles(items));
    assert Singles(items)[..x] == Singles(items[..x]);
    ConcatSingles(items[..x]);
  }

  /** The first missing image, if any, is that of the first frame of its batch. */
  predicate FailsAtHead(loads: RawFrame -> bool, batches: seq<seq<Item>>) {
    var n := Unharmed(loads, batches);
    n < |batches| ==> batches[n] != [] && !loads(batches[n][0].frame)
  }

  lemma {:induction false} AllOfConcat(loads: RawFrame -> bool, batches: seq<seq<Item>>)
    requires forall b | 0 <= b < |batches| :: AllLoad(loads, batches[b])
    ensures AllLoad(loads, Concat(batches))
  {
    if batches != [] {
      AllOfConcat(loads, batches[..|batches| - 1]);
    }
  }

  lemma {:induction false} ConcatSplits(batches: seq<seq<Item>>, n: nat)
    requires n <= |batches|
    ensures Concat(batches) == Concat(batches[..n]) + Concat(batches[n..])
  {
    if |batches| == n {
      assert batches[..n] == batches && Concat(batches[n..]) == [];
    } else {
      var last := |batches| - 1;
      ConcatSplits(batches[..last], n);
      assert batches[..last][..n] == batches[..n];
      assert batches[n..][..last - n] == batches[..last][n..] && batches[n..][last - n] == batches[last];
    }
  }

  /** A list is known by its first missing image. */
  lemma LoadableUnique(loads: RawFrame -> bool, items: seq<Item>, x: nat)
    requires x <= |items| && (forall i | 0 <= i < x :: loads(items[i].frame))
    requires x < |items| ==> !loads(items[x].frame)
    ensures Loadable(loads, items) == x
  {
    LoadableIs(loads, items);
    hide Loadable;
  }

  /** After frames that load comes a batch that does not: the first missing image lies in that batch. */
  lemma MissingInside(loads: RawFrame -> bool, before: seq<Item>, batch: seq<Item>, rest: seq<Item>) returns (y: nat)
    requires AllLoad(loads, before) && !AllLoad(loads, batch)
    ensures y < |batch| && (y == 0 <==> !loads(batch[0].frame))
    ensures Loadable(loads, before + batch + rest) == |before| + y
    ensures (before + batch + rest)[..|before| + y] == before + batch[..y]
  {
    hide Loadable;
    LoadableIs(loads, batch);
    y := Loadable(loads, batch);
    var all := before + batch + rest;
    forall i | 0 <= i < |before| + y
      ensures loads(all[i].frame)
    {
      assert all[i] == if i < |before| then before[i] else batch[i - |before|];
    }
    assert all[|before| + y] == batch[y];
    LoadableUnique(loads, all, |before| + y);
  }

  lemma AroundBatch(batches: seq<seq<Item>>, n: nat) returns (rest: seq<Item>)
    requires n < |batches|
    ensures Concat(batches) == Concat(batches[..n]) + batches[n] + rest
  {
    hide Concat;
    ConcatSplits(batches, n + 1);
    rest := Concat(batches[n + 1..]);
    assert batches[..n + 1] == batches[..n] + [batches[n]];
    ConcatMore(batches[..n], batches[n]);
  }

  /** The frames before the batch that fails load; the first missing image lies in that batch. */
  lemma FirstMissing(loads: RawFrame -> bool, batches: seq<seq<Item>>) returns (y: nat)
    requires Unharmed(loads, batches) < |batches|
    ensures var n, all := Unharmed(loads, batches), Concat(batches);
            && y < |batches[n]| && (y == 0 <==> FailsAtHead(loads, batches))
            && |Concat(batches[..n])| + y < |all|
            && Loadable(loads, all) == |Concat(batches[..n])| + y
            && all[..Loadable(loads, all)] == Concat(batches[..n]) + batches[n][..y]
  {
    hide Unharmed, Loadable, Concat, AllLoad;
    var n := Unharmed(loads, batches);
    AllOfConcat(loads, batches[..n]);
    var rest := AroundBatch(batches, n);
    y := MissingInside(loads, Concat(batches[..n]), batches[n], rest);
  }

  lemma NothingMissing(loads: RawFrame -> bool, batches: seq<seq<Item>>)
    requires Unharmed(loads, batches) == |batches|
    ensures Loadable(loads, Concat(batches)) == |Concat(batches)|
  {
    hide Unharmed, Loadable, Concat;
    AllOfConcat(loads, batches);
    LoadableUnique(loads, Concat(batches), |Concat(batches)|);
  }

  /**
   * With images missing, batching is transparent exactly if the first missing image is that of the first frame of its
   * batch: otherwise the frames before it in the batch are processed one at a time but not in the batch.
   */
  lemma TransparentIffFailsAtHead(num: Numerics, detect: Detector, loads: RawFrame -> bool, w: WorkerState,
                                  batches: seq<seq<Item>>)
    requires w.Shape()
    ensures AfterBatches(num, detect, loads, w, batches)
            == AfterBatches(num, detect, loads, w, Singles(Concat(batches)))
       <==> FailsAtHead(loads, batches)
  {
    hide ProcessItems, AfterBatches, Unharmed, Concat, Loadable;
    var n, all := Unharmed(loads, batches), Concat(batches);
    OnlyUnharmed(num, detect, loads, w, batches);
    OneByOne(num, detect, loads, w, all);
    if n == |batches| {
      NothingMissing(loads, batches);
      assert batches[..n] == batches && all[..|all|] == all;
    } else {
      var y := FirstMissing(loads, batches);
      if y == 0 {
        assert batches[n][..0] == [] && Concat(batches[..n]) + [] == Concat(batches[..n]);
      } else {
        LongerDiffers(num, detect, w, Concat(batches[..n]), batches[n][..y]);
      }
    }
  }

  lemma FreshIsShaped()
    ensures FRESH.Shape()
  {
  }

  lemma FrontOf(a: seq<Item>, b: seq<Item>, c: seq<Item>, all: seq<Item>)
    requires a + b + c == all
    ensures |a| <= |all| && all[..|a|] == a
  {
    assert a + b + c == a + (b + c);
  }

  /**
   * Under every schedule, with any images missing, the worker has done what it does for a prefix of the submitted
   * frames: those of the batches before the first one with a missing image.
   */
  lemma SchedulePrefix(num: Numerics, detect: Detector, loads: RawFrame -> bool, maxWait: real, max: nat,
                       es: seq<Batchers.Moment<Item>>)
    requires max >= 1
    ensures Batchers.Sound(IDLE.inner, max)
    ensures var batches := Batchers.Flush(Batchers.Ran(maxWait, max, IDLE, es).inner).flushed;
            var n, all := Unharmed(loads, batches), Batchers.Submitted(es);
            var done := |Concat(batches[..n])|;
            && done <= |all|
            && AfterBatches(num, detect, loads, FRESH, batches)
               == Outcome(ProcessItems(num, detect, FRESH, all[..done]), n == |batches|)
  {
    hide *;
    IdleIsSound(max);
    Batchers.ExitFlushesAllTaken(maxWait, max, IDLE, es);
    var r, all := Batchers.Ran(maxWait, max, IDLE, es), Batchers.Submitted(es);
    var batches := Batchers.Flush(r.inner).flushed;
    var n := Unharmed(loads, batches);
    assert [] + all == all;
    ConcatSplits(batches, n);
    FreshIsShaped();
    OnlyUnharmed(num, detect, loads, FRESH, batches);
    FrontOf(Concat(batches[..n]), Concat(batches[n..]), r.queue, all);
  }
}
