// What happens to a delivered message when nothing redelivers it: exactly when it can still be acknowledged.

module Redelivery {
  import opened Collections
  import opened Brokers
  import opened Storages
  import opened Pipelines

  // ---- Frames ----

  predicate Holds(worker: Worker, frame: nat) {
    frame in worker.inbox || exists i :: 0 <= i < |worker.task| && worker.task[i].frame == frame
  }

  /** The worker has the frame, and its thread still runs. */
  predicate Serves(worker: Worker, frame: nat) {
    worker.alive && Holds(worker, frame)
  }

  /** Some worker with a running thread has the frame in its queue or in hand. */
  predicate ServedFrame(y: System, frame: nat) {
    exists w | w in y.workers :: Serves(y.workers[w], frame)
  }

  predicate NeverReclaimed(steps: seq<Step>, frame: nat) {
    forall i | 0 <= i < |steps| && steps[i].ReclaimFrame? :: steps[i].frame != frame
  }

  /** Delivered, not acknowledged, and at most in the hands of dead threads. */
  predicate Stranded(y: System, frame: nat) {
    frame < y.frameGroup.cursor && frame !in y.frameGroup.acked && !ServedFrame(y, frame)
  }

  lemma WorkerDoesNotServe(y: System, w: string, frame: nat)
    requires !ServedFrame(y, frame)
    ensures !Serves(WorkerOf(y, w), frame)
  {
  }

  /** Giving one worker a state that does not serve the frame leaves nobody who does. */
  lemma SetWorkerStrands(y: System, w: string, worker: Worker, frame: nat)
    requires Stranded(y, frame) && !Serves(worker, frame)
    ensures Stranded(SetWorker(y, w, worker), frame)
  {
    hide Serves;
    var z := SetWorker(y, w, worker);
    assert forall v | v in z.workers :: v == w || (v in y.workers && z.workers[v] == y.workers[v]);
  }

  lemma FetchStrands(y: System, step: Step, frame: nat)
    requires Stranded(y, frame) && Enabled(y, step) && (step.FetchFrames? || step.ReclaimFrame?)
    requires !(step.ReclaimFrame? && step.frame == frame)
    ensures Stranded(Next(y, step), frame)
  {
    WorkerDoesNotServe(y, step.worker, frame);
    match step
    case FetchFrames(w, count) =>
      var hi := ReadUpTo(y.frameGroup, y.frames, count);
      var worker := WorkerOf(y, w).(inbox := WorkerOf(y, w).inbox + Span(y.frameGroup.cursor, hi));
      SetWorkerStrands(y.(frameGroup := Delivered(y.frameGroup, hi)), w, worker, frame);
    case ReclaimFrame(w, other) =>
      SetWorkerStrands(y, w, WorkerOf(y, w).(inbox := WorkerOf(y, w).inbox + [other]), frame);
  }

  lemma TaskStrands(y: System, step: Step, frame: nat)
    requires Stranded(y, frame) && Enabled(y, step) && (step.StartFrame? || step.PublishEvent? || step.AckFrame?)
    ensures Stranded(Next(y, step), frame)
  {
    WorkerDoesNotServe(y, step.worker, frame);
    var was := WorkerOf(y, step.worker);
    match step
    case StartFrame(w, es) =>
      var worker := was.(inbox := was.inbox[1..], task := [Task(was.inbox[0], es, 0)]);
      SetWorkerStrands(y.(issued := Issued(y.issued, es)), w, worker, frame);
    case PublishEvent(w, attempts) =>
      var t := TaskOf(y, w);
      var worker := if Succeeds(attempts) then was.(task := [t.(sent := t.sent + 1)]) else Dead(was);
      SetWorkerStrands(y.(events := y.events + Sent(t.events[t.sent], attempts)), w, worker, frame);
    case AckFrame(w) =>
      var t := TaskOf(y, w);
      var z := y.(frameGroup := Brokers.Acked(y.frameGroup, t.frame), completed := y.completed + [t]);
      SetWorkerStrands(z, w, was.(task := []), frame);
  }

  lemma StorerStepsStrand(y: System, step: Step, frame: nat)
    requires Stranded(y, frame) && Enabled(y, step)
    requires step.Capture? || step.FetchEvents? || step.ReclaimEvent? || step.WriteEvents? || step.AckEvent?
             || step.StorerCrash?
    ensures Stranded(Next(y, step), frame)
  {
    hide Serves, ReadUpTo;
  }

  lemma FailureKeepsStranded(y: System, w: string, frame: nat)
    requires Stranded(y, frame)
    ensures Stranded(Next(y, ThreadFails(w)), frame) && Stranded(Next(y, WorkerCrash(w)), frame)
  {
    SetWorkerStrands(y, w, Dead(WorkerOf(y, w)), frame);
    SetWorkerStrands(y, w, NEW_WORKER, frame);
  }

  /** No step but its reclaim gets a stranded frame out. */
  lemma StrandedStays(y: System, step: Step, frame: nat)
    requires Stranded(y, frame) && Enabled(y, step) && !(step.ReclaimFrame? && step.frame == frame)
    ensures Stranded(Next(y, step), frame)
  {
    hide *;
    if step.FetchFrames? || step.ReclaimFrame? {
      FetchStrands(y, step, frame);
    } else if step.StartFrame? || step.PublishEvent? || step.AckFrame? {
      TaskStrands(y, step, frame);
    } else if step.ThreadFails? || step.WorkerCrash? {
      FailureKeepsStranded(y, step.worker, frame);
    } else {
      StorerStepsStrand(y, step, frame);
    }
  }

  lemma {:induction false} StrandedForever(y: System, steps: seq<Step>, frame: nat)
    requires Stranded(y, frame) && Possible(y, steps) && NeverReclaimed(steps, frame)
    ensures Stranded(After(y, steps), frame)
    decreases |steps|
  {
    if steps != [] {
      StrandedStays(y, steps[0], frame);
      StrandedForever(Next(y, steps[0]), steps[1..], frame);
    }
  }

  // ---- A held frame can be finished ----

  const ALL_STORED := [Stored, Stored, Stored, Stored, Stored]

  lemma StoredSucceeds()
    ensures |ALL_STORED| == MAX_RETRIES && Succeeds(ALL_STORED)
  {
    SentUpTo(0, ALL_STORED, 0);
  }

  /** A continuation after which the worker is idle again with this inbox, and the frame is acknowledged. */
  ghost predicate Finishing(y: System, steps: seq<Step>, w: string, inbox: seq<nat>, frame: nat) {
    && Possible(y, steps) && (forall i | 0 <= i < |steps| :: !steps[i].ReclaimFrame?)
    && var z := After(y, steps);
    && Keeps(y, z) && WorkerOf(z, w) == Worker(inbox, [], true) && frame in z.frameGroup.acked
  }

  lemma OneStepFirst(y: System, step: Step, steps: seq<Step>, w: string, inbox: seq<nat>, frame: nat)
    requires Inv(y) && Enabled(y, step) && !step.ReclaimFrame? && Finishing(Next(y, step), steps, w, inbox, frame)
    ensures Finishing(y, [step] + steps, w, inbox, frame)
  {
    StepKeeps(y, step);
    assert ([step] + steps)[1..] == steps;
    KeepsTwice(y, Next(y, step), After(Next(y, step), steps));
    hide Next, Enabled, Inv, Grown;
  }

  /** The rest of a task: publish what is left, then acknowledge. */
  lemma {:induction false} FinishTask(y: System, w: string) returns (steps: seq<Step>)
    requires Inv(y) && InTask(y, w)
    ensures Finishing(y, steps, w, WorkerOf(y, w).inbox, TaskOf(y, w).frame)
    decreases |TaskOf(y, w).events| - TaskOf(y, w).sent
  {
    var t, inbox := TaskOf(y, w), WorkerOf(y, w).inbox;
    CurrentWorkerOk(y, w);
    if t.sent < |t.events| {
      StoredSucceeds();
      var step := PublishEvent(w, ALL_STORED);
      StepKeeps(y, step);
      assert WorkerOf(Next(y, step), w) == Worker(inbox, [t.(sent := t.sent + 1)], true);
      var rest := FinishTask(Next(y, step), w);
      OneStepFirst(y, step, rest, w, inbox, t.frame);
      steps := [step] + rest;
    } else {
      var step := AckFrame(w);
      StepKeeps(y, step);
      AckKeepsPartition(y.frameGroup, y.frames, t.frame);
      assert WorkerOf(Next(y, step), w) == Worker(inbox, [], true);
      OneStepFirst(y, step, [], w, inbox, t.frame);
      steps := [step] + [];
    }
  }

  lemma FinishingAppend(y: System, a: seq<Step>, b: seq<Step>, w: string, between: seq<nat>, rest: seq<nat>, first: nat,
                        frame: nat)
    requires Finishing(y, a, w, between, first) && Finishing(After(y, a), b, w, rest, frame)
    ensures Finishing(y, a + b, w, rest, frame)
  {
    AfterAppend(y, a, b);
    KeepsTwice(y, After(y, a), After(After(y, a), b));
    hide Inv, Grown, Next, Enabled;
  }

  /** An idle worker processes its inbox up to and including the frame. */
  lemma {:induction false} FinishInbox(y: System, w: string, frame: nat) returns (steps: seq<Step>, rest: seq<nat>)
    requires Inv(y) && WorkerOf(y, w).task == [] && WorkerOf(y, w).alive && frame in WorkerOf(y, w).inbox
    ensures Finishing(y, steps, w, rest, frame)
    decreases |WorkerOf(y, w).inbox|
  {
    var inbox := WorkerOf(y, w).inbox;
    var step := StartFrame(w, []);
    StepKeeps(y, step);
    var begun := Next(y, step);
    assert WorkerOf(begun, w) == Worker(inbox[1..], [Task(inbox[0], [], 0)], true);
    var first := FinishTask(begun, w);
    OneStepFirst(y, step, first, w, inbox[1..], inbox[0]);
    if inbox[0] == frame {
      steps, rest := [step] + first, inbox[1..];
    } else {
      var z := After(y, [step] + first);
      var more;
      more, rest := FinishInbox(z, w, frame);
      FinishingAppend(y, [step] + first, more, w, inbox[1..], rest, inbox[0], frame);
      steps := [step] + first + more;
    }
  }

  /** Whatever a worker with a running thread holds it can still get acknowledged. */
  lemma FinishServed(y: System, w: string, frame: nat) returns (steps: seq<Step>, rest: seq<nat>)
    requires Inv(y) && Serves(WorkerOf(y, w), frame)
    ensures Finishing(y, steps, w, rest, frame)
  {
    CurrentWorkerOk(y, w);
    if WorkerOf(y, w).task == [] {
      steps, rest := FinishInbox(y, w, frame);
    } else {
      steps := FinishTask(y, w);
      rest := WorkerOf(y, w).inbox;
      if TaskOf(y, w).frame != frame {
        var more, end := FinishInbox(After(y, steps), w, frame);
        FinishingAppend(y, steps, more, w, rest, end, TaskOf(y, w).frame, frame);
        steps, rest := steps + more, end;
      }
    }
  }

  /** Some continuation without a reclaim of the frame acknowledges it. */
  ghost predicate CanBeAcked(y: System, frame: nat) {
    exists steps :: Possible(y, steps) && NeverReclaimed(steps, frame) && frame in After(y, steps).frameGroup.acked
  }

  lemma StrandedIsStuck(y: System, frame: nat)
    requires Stranded(y, frame)
    ensures !CanBeAcked(y, frame)
  {
    forall steps | Possible(y, steps) && NeverReclaimed(steps, frame)
      ensures frame !in After(y, steps).frameGroup.acked
    {
      StrandedForever(y, steps, frame);
    }
  }

  /** After any run, a pending frame can be acknowledged without being reclaimed iff a live thread has it. */
  lemma AckableIffServed(run: seq<Step>, frame: nat)
    requires Possible(START, run) && frame in After(START, run).frameGroup.pending
    ensures CanBeAcked(After(START, run), frame) <==> ServedFrame(After(START, run), frame)
  {
    StartIsOk();
    RunKeeps(START, run);
    var y := After(START, run);
    if ServedFrame(y, frame) {
      var w :| w in y.workers && Serves(y.workers[w], frame);
      var steps, rest := FinishServed(y, w, frame);
      assert Possible(y, steps) && NeverReclaimed(steps, frame);
    } else {
      assert Stranded(y, frame);
      StrandedIsStuck(y, frame);
    }
  }

  // ---- A worker whose thread has died ----

  predicate NeverRestarted(steps: seq<Step>, w: string) {
    forall i | 0 <= i < |steps| && steps[i].WorkerCrash? :: steps[i].worker != w
  }

  lemma DeadStep(y: System, step: Step, w: string)
    requires Enabled(y, step) && !WorkerOf(y, w).alive && step != WorkerCrash(w)
    ensures !WorkerOf(Next(y, step), w).alive
  {
    hide ReadUpTo, Issued, Sent, Succeeds, WriteSucceeds, EventsAt, Written, AllNew;
  }

  /** Only a restart of the process brings a dead thread back. */
  lemma {:induction false} DeadStaysDead(y: System, steps: seq<Step>, w: string)
    requires Possible(y, steps) && !WorkerOf(y, w).alive && NeverRestarted(steps, w)
    ensures !WorkerOf(After(y, steps), w).alive
    decreases |steps|
  {
    if steps != [] {
      DeadStep(y, steps[0], w);
      DeadStaysDead(Next(y, steps[0]), steps[1..], w);
    }
  }

  /** The frames a read delivers. */
  predicate FetchedNow(y: System, count: nat, frame: nat) {
    y.frameGroup.cursor <= y.frames && y.frameGroup.cursor <= frame < ReadUpTo(y.frameGroup, y.frames, count)
  }

  /** A read for a dead thread delivers frames nobody will serve. */
  lemma DeadFetchStrands(y: System, w: string, count: nat, frame: nat)
    requires Inv(y) && !WorkerOf(y, w).alive && FetchedNow(y, count, frame)
    ensures Stranded(Next(y, FetchFrames(w, count)), frame)
  {
    var z := Next(y, FetchFrames(w, count));
    forall v | v in z.workers
      ensures !Serves(z.workers[v], frame)
    {
      if v != w {
        assert WorkerOk(y, y.workers[v]);
      }
    }
  }

  /**
   * Once its thread has died, every frame a worker reads before the process is restarted can be acknowledged by nobody
   * until it is reclaimed.
   */
  lemma DeadWorkerStrands(run: seq<Step>, more: seq<Step>, w: string, count: nat, frame: nat)
    requires Possible(START, run) && !WorkerOf(After(START, run), w).alive
    requires Possible(After(START, run), more) && NeverRestarted(more, w)
    requires FetchedNow(After(After(START, run), more), count, frame)
    ensures var y := After(After(START, run), more);
            Enabled(y, FetchFrames(w, count)) && !CanBeAcked(Next(y, FetchFrames(w, count)), frame)
  {
    StartIsOk();
    RunKeeps(START, run);
    RunKeeps(After(START, run), more);
    DeadStaysDead(After(START, run), more, w);
    var y := After(After(START, run), more);
    DeadFetchStrands(y, w, count, frame);
    StrandedIsStuck(Next(y, FetchFrames(w, count)), frame);
  }

  // ---- Events ----

  predicate HoldsEvent(storer: Storer, event: nat) {
    match storer
    case Holding(batch) => event in batch
    case Acking(rest) => event in rest
  }

  /** Some writer has the message in its batch, written or not. */
  predicate HeldEvent(y: System, event: nat) {
    exists s | s in y.storers :: HoldsEvent(y.storers[s], event)
  }

  predicate EventNeverReclaimed(steps: seq<Step>, event: nat) {
    forall i | 0 <= i < |steps| && steps[i].ReclaimEvent? :: steps[i].event != event
  }

  predicate StrandedEvent(y: System, event: nat) {
    event < y.eventGroup.cursor && event !in y.eventGroup.acked && !HeldEvent(y, event)
  }

  lemma SetStorerStrands(y: System, s: string, storer: Storer, event: nat)
    requires StrandedEvent(y, event) && !HoldsEvent(storer, event)
    ensures StrandedEvent(SetStorer(y, s, storer), event)
  {
    hide HoldsEvent;
    var z := SetStorer(y, s, storer);
    assert forall v | v in z.storers :: v == s || (v in y.storers && z.storers[v] == y.storers[v]);
  }

  lemma StrandedEventStays(y: System, step: Step, event: nat)
    requires StrandedEvent(y, event) && Enabled(y, step) && !(step.ReclaimEvent? && step.event == event)
    ensures StrandedEvent(Next(y, step), event)
  {
    match step
    case Capture =>
    case FetchFrames(w, count) =>
    case ReclaimFrame(w, frame) =>
    case StartFrame(w, es) =>
    case PublishEvent(w, attempts) =>
    case AckFrame(w) =>
    case ThreadFails(w) =>
    case WorkerCrash(w) =>
    case FetchEvents(s, count) =>
      var hi := ReadUpTo(y.eventGroup, |y.events|, count);
      var storer := if hi == y.eventGroup.cursor then NEW_STORER else Holding(Span(y.eventGroup.cursor, hi));
      SetStorerStrands(y.(eventGroup := Delivered(y.eventGroup, hi)), s, storer, event);
    case ReclaimEvent(s, other) => SetStorerStrands(y, s, Holding([other]), event);
    case WriteEvents(s, failure) =>
      var batch := StorerOf(y, s).batch;
      var es := EventsAt(y.events, batch);
      if WriteSucceeds(es, failure) {
        SetStorerStrands(y.(table := Written(y.table, es)), s, Acking(batch), event);
      } else {
        SetStorerStrands(y, s, NEW_STORER, event);
      }
    case AckEvent(s) =>
      var rest := StorerOf(y, s).rest;
      SetStorerStrands(y.(eventGroup := Brokers.Acked(y.eventGroup, rest[0])), s, Acking(rest[1..]), event);
    case StorerCrash(s) => SetStorerStrands(y, s, NEW_STORER, event);
  }

  lemma {:induction false} StrandedEventForever(y: System, steps: seq<Step>, event: nat)
    requires StrandedEvent(y, event) && Possible(y, steps) && EventNeverReclaimed(steps, event)
    ensures StrandedEvent(After(y, steps), event)
    decreases |steps|
  {
    if steps != [] {
      StrandedEventStays(y, steps[0], event);
      StrandedEventForever(Next(y, steps[0]), steps[1..], event);
    }
  }

  /** A continuation without reclaims after which the message is acknowledged. */
  ghost predicate Storing(y: System, steps: seq<Step>, event: nat) {
    && Possible(y, steps) && EventNeverReclaimed(steps, event)
    && event in After(y, steps).eventGroup.acked
  }

  lemma StoringFirst(y: System, step: Step, steps: seq<Step>, event: nat)
    requires Enabled(y, step) && !step.ReclaimEvent? && Storing(Next(y, step), steps, event)
    ensures Storing(y, [step] + steps, event)
  {
    assert ([step] + steps)[1..] == steps;
    hide Next, Enabled;
  }

  /** A written batch is acknowledged message by message. */
  lemma {:induction false} FinishAcks(y: System, s: string, event: nat) returns (steps: seq<Step>)
    requires Inv(y) && StorerOf(y, s).Acking? && event in StorerOf(y, s).rest
    ensures Storing(y, steps, event)
    decreases |StorerOf(y, s).rest|
  {
    var rest := StorerOf(y, s).rest;
    var step := AckEvent(s);
    CurrentStorerOk(y, s);
    StepKeeps(y, step);
    AckKeepsPartition(y.eventGroup, |y.events|, rest[0]);
    var next := Next(y, step);
    if rest[0] == event {
      StoringFirst(y, step, [], event);
      steps := [step] + [];
    } else {
      assert StorerOf(next, s) == Acking(rest[1..]);
      var more := FinishAcks(next, s, event);
      StoringFirst(y, step, more, event);
      steps := [step] + more;
    }
  }

  /** Whatever a writer holds it can still get acknowledged. */
  lemma FinishHeldEvent(y: System, s: string, event: nat) returns (steps: seq<Step>)
    requires Inv(y) && HoldsEvent(StorerOf(y, s), event)
    ensures Storing(y, steps, event)
  {
    if StorerOf(y, s).Acking? {
      steps := FinishAcks(y, s, event);
    } else {
      var step, batch := WriteEvents(s, Nowhere), StorerOf(y, s).batch;
      CurrentStorerOk(y, s);
      StepKeeps(y, step);
      assert StorerOf(Next(y, step), s) == Acking(batch);
      var more := FinishAcks(Next(y, step), s, event);
      StoringFirst(y, step, more, event);
      steps := [step] + more;
    }
  }

  ghost predicate EventCanBeAcked(y: System, event: nat) {
    exists steps :: Storing(y, steps, event)
  }

  /** After any run, a pending event can be acknowledged without being reclaimed iff some writer holds it. */
  lemma EventAckableIffHeld(run: seq<Step>, event: nat)
    requires Possible(START, run) && event in After(START, run).eventGroup.pending
    ensures EventCanBeAcked(After(START, run), event) <==> HeldEvent(After(START, run), event)
  {
    StartIsOk();
    RunKeeps(START, run);
    var y := After(START, run);
    if HeldEvent(y, event) {
      var s :| s in y.storers && HoldsEvent(y.storers[s], event);
      var steps := FinishHeldEvent(y, s, event);
    } else {
      assert StrandedEvent(y, event);
      forall steps | Possible(y, steps) && EventNeverReclaimed(steps, event)
        ensures event !in After(y, steps).eventGroup.acked
      {
        StrandedEventForever(y, steps, event);
      }
    }
  }

  // ---- Runs that strand a message ----

  /** A worker that crashes with a frame it fetched: the frame is pending, and nothing but a reclaim gets it out. */
  lemma CrashStrandsFrame()
    ensures var run := [Capture] + [FetchFrames("w", 1)] + [WorkerCrash("w")];
            Possible(START, run) && 0 in After(START, run).frameGroup.pending && !CanBeAcked(After(START, run), 0)
  {
    OneMoreStep(START, [], Capture);
    assert [] + [Capture] == [Capture];
    OneMoreStep(START, [Capture], FetchFrames("w", 1));
    OneMoreStep(START, [Capture] + [FetchFrames("w", 1)], WorkerCrash("w"));
    AckableIffServed([Capture] + [FetchFrames("w", 1)] + [WorkerCrash("w")], 0);
  }

  const ALL_REFUSED := [Refused, Refused, Refused, Refused, Refused]

  lemma {:induction false} NothingCopied(e: TrackEvent, attempts: seq<Attempt>)
    requires forall i | 0 <= i < |attempts| :: attempts[i] == Refused
    ensures Copies(e, attempts) == []
  {
    if attempts != [] {
      NothingCopied(e, attempts[..|attempts| - 1]);
    }
  }

  lemma RefusedFails(e: TrackEvent)
    ensures |ALL_REFUSED| == MAX_RETRIES && !Succeeds(ALL_REFUSED) && Sent(e, ALL_REFUSED) == []
  {
    SentInVain(e, ALL_REFUSED);
    NothingCopied(e, ALL_REFUSED[..MAX_RETRIES]);
  }

  /** Two frames are captured, the first is read and begun. */
  function Begun(e: TrackEvent): seq<Step> {
    [Capture] + [Capture] + [FetchFrames("w", 1)] + [StartFrame("w", [e])]
  }

  /** The publish of its event fails for good; the second frame is read. */
  function FailedPublish(e: TrackEvent): seq<Step> {
    Begun(e) + [PublishEvent("w", ALL_REFUSED)] + [FetchFrames("w", 1)]
  }

  /** One read frame in hand, one not yet read. */
  predicate OneInHand(y: System, e: TrackEvent) {
    && y.frames == 2 && y.frameGroup == Group(1, {0}, {})
    && y.workers == map["w" := Worker([], [Task(0, [e], 0)], true)]
  }

  lemma TwoCaptured()
    ensures Possible(START, [Capture] + [Capture])
    ensures After(START, [Capture] + [Capture]) == START.(frames := 2)
  {
    OneMoreStep(START, [], Capture);
    assert [] + [Capture] == [Capture];
    OneMoreStep(START, [Capture], Capture);
  }

  lemma FirstIsRead(y: System)
    requires y == START.(frames := 2)
    ensures Enabled(y, FetchFrames("w", 1))
    ensures var z := Next(y, FetchFrames("w", 1));
            z == y.(frameGroup := Group(1, {0}, {}), workers := map["w" := Worker([0], [], true)])
  {
    assert Span(0, 1) == [0] && Between(0, 1) == {0};
    assert {} + {0} == {0} && [] + [0] == [0];
  }

  lemma FirstIsBegun(y: System, e: TrackEvent)
    requires y == START.(frames := 2, frameGroup := Group(1, {0}, {}), workers := map["w" := Worker([0], [], true)])
    ensures Enabled(y, StartFrame("w", [e])) && OneInHand(Next(y, StartFrame("w", [e])), e)
  {
    assert [0][1..] == [];
    hide Issued;
  }

  lemma BegunIsInHand(e: TrackEvent)
    ensures Possible(START, Begun(e)) && OneInHand(After(START, Begun(e)), e)
  {
    hide After, Possible, Enabled, Next, OneInHand;
    var a := [Capture] + [Capture];
    TwoCaptured();
    FirstIsRead(After(START, a));
    OneMoreStep(START, a, FetchFrames("w", 1));
    FirstIsBegun(After(START, a + [FetchFrames("w", 1)]), e);
    OneMoreStep(START, a + [FetchFrames("w", 1)], StartFrame("w", [e]));
  }

  /** The failed publish leaves the frame with a dead thread. */
  lemma PublishKillsThread(y: System, e: TrackEvent)
    requires OneInHand(y, e)
    ensures Enabled(y, PublishEvent("w", ALL_REFUSED))
    ensures var z := Next(y, PublishEvent("w", ALL_REFUSED));
            && z.frames == 2 && z.frameGroup == Group(1, {0}, {})
            && z.workers == map["w" := Worker([], [Task(0, [e], 0)], false)]
  {
    RefusedFails(e);
    hide Sent, Succeeds;
  }

  lemma DeadThreadReads(y: System, e: TrackEvent)
    requires y.frames == 2 && y.frameGroup == Group(1, {0}, {})
    requires y.workers == map["w" := Worker([], [Task(0, [e], 0)], false)]
    ensures Enabled(y, FetchFrames("w", 1))
    ensures var z := Next(y, FetchFrames("w", 1));
            z.frameGroup == Group(2, {0, 1}, {}) && z.workers == map["w" := Worker([1], [Task(0, [e], 0)], false)]
  {
    assert Span(1, 2) == [1] && Between(1, 2) == {1};
    assert [] + [1] == [1];
  }

  /** Both frames are pending in the process that read them, and no continuation without a reclaim gets them out. */
  lemma FailedPublishStrands(e: TrackEvent)
    ensures Possible(START, FailedPublish(e))
    ensures var y := After(START, FailedPublish(e));
            && 0 in y.frameGroup.pending && 1 in y.frameGroup.pending
            && Holds(WorkerOf(y, "w"), 0) && Holds(WorkerOf(y, "w"), 1)
            && !CanBeAcked(y, 0) && !CanBeAcked(y, 1)
  {
    hide Begun, After, Possible, Enabled, Next, CanBeAcked, Stranded;
    BegunIsInHand(e);
    var a := Begun(e);
    PublishKillsThread(After(START, a), e);
    OneMoreStep(START, a, PublishEvent("w", ALL_REFUSED));
    var b := a + [PublishEvent("w", ALL_REFUSED)];
    DeadThreadReads(After(START, b), e);
    OneMoreStep(START, b, FetchFrames("w", 1));
    assert WorkerOf(After(START, b + [FetchFrames("w", 1)]), "w").task[0].frame == 0;
    AckableIffServed(b + [FetchFrames("w", 1)], 0);
    AckableIffServed(b + [FetchFrames("w", 1)], 1);
  }

  /** A run in which one event of one frame is published. */
  function OneEvent(e: TrackEvent): seq<Step> {
    [Capture] + [FetchFrames("w", 1)] + [StartFrame("w", [e])] + [PublishEvent("w", ALL_STORED)]
  }

  lemma OneEventIsPublished(e: TrackEvent)
    ensures Possible(START, OneEvent(e))
    ensures var y := After(START, OneEvent(e)); y.events != [] && y.eventGroup == NEW_GROUP && y.storers == map[]
  {
    OneMoreStep(START, [], Capture);
    assert [] + [Capture] == [Capture];
    OneMoreStep(START, [Capture], FetchFrames("w", 1));
    var fetched := After(START, [Capture] + [FetchFrames("w", 1)]);
    assert WorkerOf(fetched, "w").inbox == Span(0, 1);
    OneMoreStep(START, [Capture] + [FetchFrames("w", 1)], StartFrame("w", [e]));
    StoredSucceeds();
    PublishAppendsCopies(e, ALL_STORED);
    OneMoreStep(START, [Capture] + [FetchFrames("w", 1)] + [StartFrame("w", [e])], PublishEvent("w", ALL_STORED));
  }

  /** A writer that crashes with an event it fetched: nothing but a reclaim gets it out. */
  lemma CrashStrandsEvent(e: TrackEvent)
    ensures var run := OneEvent(e) + [FetchEvents("s", 1)] + [StorerCrash("s")];
            Possible(START, run) && 0 in After(START, run).eventGroup.pending && !EventCanBeAcked(After(START, run), 0)
  {
    hide OneEvent;
    OneEventIsPublished(e);
    OneMoreStep(START, OneEvent(e), FetchEvents("s", 1));
    OneMoreStep(START, OneEvent(e) + [FetchEvents("s", 1)], StorerCrash("s"));
    EventAckableIffHeld(OneEvent(e) + [FetchEvents("s", 1)] + [StorerCrash("s")], 0);
  }

  /** A pending frame reclaimed by a worker whose thread runs can be acknowledged again. */
  lemma ReclaimRescues(run: seq<Step>, w: string, frame: nat)
    requires Possible(START, run) && frame in After(START, run).frameGroup.pending
    requires WorkerOf(After(START, run), w).alive
    ensures var y := After(START, run);
            Enabled(y, ReclaimFrame(w, frame)) && CanBeAcked(Next(y, ReclaimFrame(w, frame)), frame)
  {
    var y, step := After(START, run), ReclaimFrame(w, frame);
    OneMoreStep(START, run, step);
    assert Serves(Next(y, step).workers[w], frame);
    AckableIffServed(run + [step], frame);
  }

  /** A pending event reclaimed by a writer can be acknowledged again. */
  lemma ReclaimRescuesEvent(run: seq<Step>, s: string, event: nat)
    requires Possible(START, run) && Enabled(After(START, run), ReclaimEvent(s, event))
    ensures EventCanBeAcked(Next(After(START, run), ReclaimEvent(s, event)), event)
  {
    var y, step := After(START, run), ReclaimEvent(s, event);
    OneMoreStep(START, run, step);
    assert HoldsEvent(Next(y, step).storers[s], event);
    EventAckableIffHeld(run + [step], event);
  }

  /** A write that fails changes no row, and strands every event of the batch that no other writer holds. */
  lemma FailedWriteStrands(run: seq<Step>, s: string, failure: Failure, event: nat)
    requires Possible(START, run) && Enabled(After(START, run), WriteEvents(s, failure))
    requires var y := After(START, run);
             && !WriteSucceeds(EventsAt(y.events, StorerOf(y, s).batch), failure)
             && event in StorerOf(y, s).batch && event in y.eventGroup.pending
             && forall r | r in y.storers && r != s :: !HoldsEvent(y.storers[r], event)
    ensures var y := After(START, run);
            Next(y, WriteEvents(s, failure)).table == y.table
            && !EventCanBeAcked(Next(y, WriteEvents(s, failure)), event)
  {
    var y, step := After(START, run), WriteEvents(s, failure);
    OneMoreStep(START, run, step);
    assert !HoldsEvent(Next(y, step).storers[s], event);
    EventAckableIffHeld(run + [step], event);
  }
}
