// Runs in which no frame is reclaimed: every frame is in one worker's hands at most, is taken up in the order of the
// stream, and is processed to the end once at most.

module PipelineOrders {
  import opened Collections
  import opened Brokers
  import opened Storages
  import opened Pipelines

  /** The frames a worker still has to do, the one it is at first. */
  function InHand(worker: Worker): seq<nat> {
    (if worker.task == [] then [] else [worker.task[0].frame]) + worker.inbox
  }

  predicate Done(y: System, frame: nat) {
    exists k :: 0 <= k < |y.completed| && y.completed[k].frame == frame
  }

  /** A worker's frames are in the order of the stream, have been read, and are not done yet. */
  predicate OrderlyHand(y: System, hand: seq<nat>) {
    Ascending(hand) && forall f | f in hand :: f < y.frameGroup.cursor && !Done(y, f)
  }

  predicate Apart(a: seq<nat>, b: seq<nat>) {
    forall f | f in a :: f !in b
  }

  predicate DoneOnce(y: System) {
    && (forall k | 0 <= k < |y.completed| :: y.completed[k].frame < y.frameGroup.cursor)
    && forall k, l | 0 <= k < l < |y.completed| :: y.completed[k].frame != y.completed[l].frame
  }

  predicate Orderly(y: System) {
    && DoneOnce(y)
    && (forall w | w in y.workers :: |y.workers[w].task| <= 1 && OrderlyHand(y, InHand(y.workers[w])))
    && forall v, w | v in y.workers && w in y.workers && v != w ::
         Apart(InHand(y.workers[v]), InHand(y.workers[w]))
  }

  lemma CurrentHand(y: System, w: string)
    requires Orderly(y)
    ensures |WorkerOf(y, w).task| <= 1 && OrderlyHand(y, InHand(WorkerOf(y, w)))
    ensures forall v | v in y.workers && v != w :: Apart(InHand(y.workers[v]), InHand(WorkerOf(y, w)))
  {
    hide DoneOnce;
  }

  /** A worker gives up frames, or none. */
  lemma SmallerHand(y: System, z: System, w: string, worker: Worker)
    requires Orderly(y) && z.workers == y.workers[w := worker]
    requires z.frameGroup.cursor == y.frameGroup.cursor && z.completed == y.completed
    requires |worker.task| <= 1 && Ascending(InHand(worker))
    requires forall f | f in InHand(worker) :: f in InHand(WorkerOf(y, w))
    ensures Orderly(z)
  {
    hide InHand, Ascending;
    CurrentHand(y, w);
    assert forall f: nat :: Done(z, f) <==> Done(y, f);
    hide Done;
  }

  lemma SpanGoesOn(hand: seq<nat>, lo: nat, hi: nat)
    requires Ascending(hand) && lo <= hi && forall f | f in hand :: f < lo
    ensures Ascending(hand + Span(lo, hi))
    ensures forall f | f in hand + Span(lo, hi) :: f in hand || lo <= f < hi
  {
    assert forall i | 0 <= i < |hand| :: hand[i] in hand;
  }

  /** A worker reads on: the frames it gets are later than all that anyone has or has done. */
  lemma ReadingOn(y: System, z: System, w: string, worker: Worker, hi: nat)
    requires Orderly(y) && z.workers == y.workers[w := worker] && z.completed == y.completed
    requires y.frameGroup.cursor <= hi == z.frameGroup.cursor
    requires |worker.task| <= 1 && InHand(worker) == InHand(WorkerOf(y, w)) + Span(y.frameGroup.cursor, hi)
    ensures Orderly(z)
  {
    hide InHand, Ascending;
    CurrentHand(y, w);
    SpanGoesOn(InHand(WorkerOf(y, w)), y.frameGroup.cursor, hi);
    assert forall f: nat :: Done(z, f) <==> Done(y, f);
    assert forall f: nat | Done(y, f) :: f < y.frameGroup.cursor;
    hide Done;
  }

  lemma HandAfterFirst(worker: Worker, t: Task)
    requires worker.task == [t] && Ascending(InHand(worker))
    ensures var rest := InHand(worker.(task := []));
            && Ascending(rest) && t.frame in InHand(worker) && t.frame !in rest
            && forall f | f in rest :: f in InHand(worker)
  {
    var hand, rest := InHand(worker), worker.inbox;
    assert hand == [t.frame] + rest;
    assert hand[0] == t.frame;
    assert forall i | 0 <= i < |rest| :: rest[i] == hand[i + 1] > hand[0];
  }

  lemma OneMoreDone(y: System, z: System, t: Task)
    requires DoneOnce(y) && z.completed == y.completed + [t] && z.frameGroup.cursor == y.frameGroup.cursor
    requires t.frame < y.frameGroup.cursor && !Done(y, t.frame)
    ensures DoneOnce(z)
  {
  }

  lemma DoneMore(y: System, z: System, t: Task)
    requires z.completed == y.completed + [t]
    ensures forall f: nat :: Done(z, f) <==> Done(y, f) || f == t.frame
  {
    forall f: nat
      ensures Done(z, f) <==> Done(y, f) || f == t.frame
    {
      if Done(y, f) {
        var k :| 0 <= k < |y.completed| && y.completed[k].frame == f;
        assert z.completed[k].frame == f;
      }
      assert z.completed[|y.completed|] == t;
    }
  }

  /** A worker finishes the frame it is at. */
  lemma Finishing(y: System, z: System, w: string, t: Task)
    requires Orderly(y) && WorkerOf(y, w).task == [t]
    requires z.workers == y.workers[w := WorkerOf(y, w).(task := [])]
    requires z.frameGroup.cursor == y.frameGroup.cursor && z.completed == y.completed + [t]
    ensures Orderly(z)
  {
    hide InHand, Ascending;
    CurrentHand(y, w);
    HandAfterFirst(WorkerOf(y, w), t);
    DoneMore(y, z, t);
    OneMoreDone(y, z, t);
    hide Done, DoneOnce;
  }

  lemma StartKeepsHand(worker: Worker, es: seq<TrackEvent>)
    requires worker.task == [] && worker.inbox != []
    ensures InHand(worker.(inbox := worker.inbox[1..], task := [Task(worker.inbox[0], es, 0)])) == InHand(worker)
  {
  }

  lemma ReadKeepsHand(worker: Worker, more: seq<nat>)
    ensures InHand(worker.(inbox := worker.inbox + more)) == InHand(worker) + more
  {
  }

  lemma SameFrameSameHand(worker: Worker, t: Task)
    requires |worker.task| == 1 && t.frame == worker.task[0].frame
    ensures InHand(worker.(task := [t])) == InHand(worker) && InHand(Dead(worker)) == InHand(worker)
  {
  }

  lemma PublishIsOrderly(y: System, w: string, attempts: seq<Attempt>)
    requires Orderly(y) && Enabled(y, PublishEvent(w, attempts))
    ensures Orderly(Next(y, PublishEvent(w, attempts)))
  {
    hide Orderly, InHand, Ascending, Sent, Succeeds;
    var z, t := Next(y, PublishEvent(w, attempts)), TaskOf(y, w);
    CurrentHand(y, w);
    SameFrameSameHand(WorkerOf(y, w), t.(sent := t.sent + 1));
    SmallerHand(y, z, w, z.workers[w]);
  }

  lemma FetchIsOrderly(y: System, w: string, count: nat)
    requires Orderly(y) && Enabled(y, FetchFrames(w, count))
    ensures Orderly(Next(y, FetchFrames(w, count)))
  {
    hide Orderly, InHand, Ascending;
    var z, hi := Next(y, FetchFrames(w, count)), ReadUpTo(y.frameGroup, y.frames, count);
    CurrentHand(y, w);
    ReadKeepsHand(WorkerOf(y, w), Span(y.frameGroup.cursor, hi));
    ReadingOn(y, z, w, z.workers[w], hi);
  }

  lemma StartIsOrderly(y: System, w: string, es: seq<TrackEvent>)
    requires Orderly(y) && Enabled(y, StartFrame(w, es))
    ensures Orderly(Next(y, StartFrame(w, es)))
  {
    hide Orderly, InHand, Ascending, Issued, AllNew;
    var z := Next(y, StartFrame(w, es));
    CurrentHand(y, w);
    StartKeepsHand(WorkerOf(y, w), es);
    SmallerHand(y, z, w, z.workers[w]);
  }

  lemma FailureIsOrderly(y: System, w: string)
    requires Orderly(y)
    ensures Orderly(Next(y, ThreadFails(w))) && Orderly(Next(y, WorkerCrash(w)))
  {
    hide Orderly;
    CurrentHand(y, w);
    SmallerHand(y, Next(y, ThreadFails(w)), w, Dead(WorkerOf(y, w)));
    SmallerHand(y, Next(y, WorkerCrash(w)), w, NEW_WORKER);
  }

  lemma SameHands(y: System, z: System)
    requires Orderly(y) && z.workers == y.workers && z.completed == y.completed
    requires z.frameGroup.cursor == y.frameGroup.cursor
    ensures Orderly(z)
  {
    hide InHand, Ascending;
    assert forall f: nat :: Done(z, f) <==> Done(y, f);
  }

  /** Every step but a reclaim keeps the order. */
  lemma StepIsOrderly(y: System, step: Step)
    requires Orderly(y) && Enabled(y, step) && !step.ReclaimFrame?
    ensures Orderly(Next(y, step))
  {
    hide Orderly, InHand, Ascending, Sent, Succeeds, Written, WriteSucceeds, Issued;
    match step
    case FetchFrames(w, count) => FetchIsOrderly(y, w, count);
    case StartFrame(w, es) => StartIsOrderly(y, w, es);
    case PublishEvent(w, attempts) => PublishIsOrderly(y, w, attempts);
    case AckFrame(w) => Finishing(y, Next(y, step), w, TaskOf(y, w));
    case ThreadFails(w) => FailureIsOrderly(y, w);
    case WorkerCrash(w) => FailureIsOrderly(y, w);
    case Capture => SameHands(y, Next(y, step));
    case FetchEvents(s, count) => SameHands(y, Next(y, step));
    case ReclaimEvent(s, event) => SameHands(y, Next(y, step));
    case WriteEvents(s, failure) => SameHands(y, Next(y, step));
    case AckEvent(s) => SameHands(y, Next(y, step));
    case StorerCrash(s) => SameHands(y, Next(y, step));
    case ReclaimFrame(w, frame) => assert false;
  }

  predicate NoReclaim(steps: seq<Step>) {
    forall i | 0 <= i < |steps| :: !steps[i].ReclaimFrame?
  }

  lemma {:induction false} RunIsOrderly(y: System, steps: seq<Step>)
    requires Orderly(y) && Possible(y, steps) && NoReclaim(steps)
    ensures Orderly(After(y, steps))
    decreases |steps|
  {
    hide Orderly;
    if steps != [] {
      StepIsOrderly(y, steps[0]);
      RunIsOrderly(Next(y, steps[0]), steps[1..]);
    }
  }

  /**
   * Without reclaims no frame is processed to the end twice, whatever crashes; a worker takes its frames up in the
   * order of the stream; and no frame is with two workers, or with one and done.
   */
  lemma ProcessedOnceInOrder(steps: seq<Step>, v: string, w: string)
    requires Possible(START, steps) && NoReclaim(steps) && v != w
    ensures var y := After(START, steps);
            && (forall k, l | 0 <= k < l < |y.completed| :: y.completed[k].frame != y.completed[l].frame)
            && Ascending(InHand(WorkerOf(y, w)))
            && forall f | f in InHand(WorkerOf(y, w)) :: !Done(y, f) && f !in InHand(WorkerOf(y, v))
  {
    RunIsOrderly(START, steps);
    CurrentHand(After(START, steps), w);
    CurrentHand(After(START, steps), v);
    hide InHand, Done, Ascending;
  }

  // ---- A reclaim may repeat a frame ----

  /** A worker reads a frame and takes it up. */
  function TakenUp(): seq<Step> {
    [Capture] + [FetchFrames("w", 1)] + [StartFrame("w", [])]
  }

  lemma ReadByW(y: System)
    requires y.frames == 1 && y.frameGroup == NEW_GROUP && y.workers == map[]
    ensures var z := Next(y, FetchFrames("w", 1));
            && z.frameGroup == Group(1, {0}, {}) && z.completed == y.completed && z.issued == y.issued
            && z.workers == map["w" := Worker([0], [], true)]
  {
    assert Between(0, 1) == {0};
    assert Span(0, 1) == [0];
    assert WorkerOf(y, "w").inbox + [0] == [0];
  }

  lemma BegunByW(y: System)
    requires y.workers == map["w" := Worker([0], [], true)]
    ensures Enabled(y, StartFrame("w", []))
    ensures Next(y, StartFrame("w", [])).workers == map["w" := Worker([], [Task(0, [], 0)], true)]
  {
    assert [0][1..] == [];
  }

  lemma TakenUpByW()
    ensures Possible(START, TakenUp())
    ensures var y := After(START, TakenUp());
            && y.frameGroup == Group(1, {0}, {}) && y.completed == []
            && y.workers == map["w" := Worker([], [Task(0, [], 0)], true)]
  {
    OneMoreStep(START, [], Capture);
    assert [] + [Capture] == [Capture];
    ReadByW(After(START, [Capture]));
    OneMoreStep(START, [Capture], FetchFrames("w", 1));
    BegunByW(After(START, [Capture] + [FetchFrames("w", 1)]));
    OneMoreStep(START, [Capture] + [FetchFrames("w", 1)], StartFrame("w", []));
  }

  /** Both workers are at frame 0, and the first has it done. */
  lemma SecondTakesUp(y: System)
    requires y.frameGroup == Group(1, {0}, {}) && y.completed == []
    requires y.workers == map["w" := Worker([], [Task(0, [], 0)], true)]
    ensures var steps := [ReclaimFrame("v", 0)] + [AckFrame("w")] + [StartFrame("v", [])] + [AckFrame("v")];
            Possible(y, steps) && After(y, steps).completed == [Task(0, [], 0), Task(0, [], 0)]
  {
    OneMoreStep(y, [], ReclaimFrame("v", 0));
    assert [] + [ReclaimFrame("v", 0)] == [ReclaimFrame("v", 0)];
    OneMoreStep(y, [ReclaimFrame("v", 0)], AckFrame("w"));
    OneMoreStep(y, [ReclaimFrame("v", 0)] + [AckFrame("w")], StartFrame("v", []));
    OneMoreStep(y, [ReclaimFrame("v", 0)] + [AckFrame("w")] + [StartFrame("v", [])], AckFrame("v"));
  }

  /** A frame reclaimed from a worker that is still at it is processed to the end by both. */
  lemma ReclaimMayRepeat() returns (run: seq<Step>)
    ensures Possible(START, run) && After(START, run).completed == [Task(0, [], 0), Task(0, [], 0)]
  {
    TakenUpByW();
    var y := After(START, TakenUp());
    SecondTakesUp(y);
    var steps := [ReclaimFrame("v", 0)] + [AckFrame("w")] + [StartFrame("v", [])] + [AckFrame("v")];
    AfterAppend(START, TakenUp(), steps);
    run := TakenUp() + steps;
  }
}
