// Frames to rows: workers, storage writers, crashes and redelivery as one transition system, and what every run keeps.

module Pipelines {
  import opened Collections
  import opened Brokers
  import opened Storages

  /** A frame being processed: the events its detections and tracks gave, and how many are published. */
  datatype Task = Task(frame: nat, events: seq<TrackEvent>, sent: nat)

  /**
   * A worker process: the frames submitted to its batcher and not yet begun, the frame in hand, and whether the
   * batcher's thread, which does all the processing, still runs. The main thread goes on reading either way.
   */
  datatype Worker = Worker(inbox: seq<nat>, task: seq<Task>, alive: bool)

  /** A storage writer holds a batch it read, then acknowledges it message by message once it is written. */
  datatype Storer = Holding(batch: seq<nat>) | Acking(rest: seq<nat>)

  const NEW_WORKER := Worker([], [], true)
  const NEW_STORER := Acking([])

  /** Two streams with their groups, the table and the processes; the last two fields only record history. */
  datatype System = System(frames: nat, frameGroup: Group, events: seq<TrackEvent>, eventGroup: Group, table: Table,
                           workers: map<string, Worker>, storers: map<string, Storer>,
                           completed: seq<Task>, issued: map<string, TrackEvent>)

  datatype Step =
    | Capture
    | FetchFrames(worker: string, count: nat)
    | ReclaimFrame(worker: string, frame: nat)
    | StartFrame(worker: string, generated: seq<TrackEvent>)
    | PublishEvent(worker: string, attempts: seq<Attempt>)
    | AckFrame(worker: string)
    | ThreadFails(worker: string)
    | WorkerCrash(worker: string)
    | FetchEvents(storer: string, count: nat)
    | ReclaimEvent(storer: string, event: nat)
    | WriteEvents(storer: string, failure: Failure)
    | AckEvent(storer: string)
    | StorerCrash(storer: string)

  function WorkerOf(y: System, w: string): Worker {
    if w in y.workers then y.workers[w] else NEW_WORKER
  }

  function StorerOf(y: System, s: string): Storer {
    if s in y.storers then y.storers[s] else NEW_STORER
  }

  const START := System(0, NEW_GROUP, [], NEW_GROUP, map[], map[], map[], [], map[])

  // ---- What each step is ----

  predicate DistinctIds(es: seq<TrackEvent>) {
    forall i, j | 0 <= i < j < |es| :: es[i].eventId != es[j].eventId
  }

  /** Generated event ids were never generated before. */
  predicate AllNew(y: System, es: seq<TrackEvent>) {
    DistinctIds(es) && forall i | 0 <= i < |es| :: es[i].eventId !in y.issued
  }

  /** The worker's thread runs and has a frame in hand. */
  predicate InTask(y: System, w: string) {
    |WorkerOf(y, w).task| == 1 && WorkerOf(y, w).alive
  }

  /** The worker's thread runs, has no frame in hand, and finds one in its queue. */
  predicate Ready(y: System, w: string) {
    WorkerOf(y, w).inbox != [] && WorkerOf(y, w).task == [] && WorkerOf(y, w).alive
  }

  function TaskOf(y: System, w: string): Task
    requires InTask(y, w)
  {
    WorkerOf(y, w).task[0]
  }

  predicate Enabled(y: System, step: Step) {
    match step
    case Capture => true
    case FetchFrames(w, count) => y.frameGroup.cursor <= y.frames
    case ReclaimFrame(w, frame) => frame in y.frameGroup.pending
    case StartFrame(w, es) => Ready(y, w) && AllNew(y, es)
    case PublishEvent(w, attempts) =>
      InTask(y, w) && TaskOf(y, w).sent < |TaskOf(y, w).events| && |attempts| == MAX_RETRIES
    case AckFrame(w) => InTask(y, w) && TaskOf(y, w).sent == |TaskOf(y, w).events|
    case ThreadFails(w) => true
    case WorkerCrash(w) => true
    case FetchEvents(s, count) => StorerOf(y, s) == Acking([]) && y.eventGroup.cursor <= |y.events|
    case ReclaimEvent(s, event) => StorerOf(y, s) == Acking([]) && event in y.eventGroup.pending
    case WriteEvents(s, failure) =>
      StorerOf(y, s).Holding? && forall i | 0 <= i < |StorerOf(y, s).batch| :: StorerOf(y, s).batch[i] < |y.events|
    case AckEvent(s) => StorerOf(y, s).Acking? && StorerOf(y, s).rest != []
    case StorerCrash(s) => true
  }

  function EventsAt(log: seq<TrackEvent>, ids: seq<nat>): (es: seq<TrackEvent>)
    requires forall i | 0 <= i < |ids| :: ids[i] < |log|
    ensures |es| == |ids| && forall i | 0 <= i < |ids| :: es[i] == log[ids[i]]
  {
    seq(|ids|, i requires 0 <= i < |ids| => log[ids[i]])
  }

  function Issued(m: map<string, TrackEvent>, es: seq<TrackEvent>): map<string, TrackEvent> {
    if es == [] then m
    else
      var last := es[|es| - 1];
      Issued(m, es[..|es| - 1])[last.eventId := last]
  }

  function SetWorker(y: System, w: string, worker: Worker): System {
    y.(workers := y.workers[w := worker])
  }

  function SetStorer(y: System, s: string, storer: Storer): System {
    y.(storers := y.storers[s := storer])
  }

  /** An exception in the thread ends it. What it held stays where it is; nobody will touch it again. */
  function Dead(worker: Worker): Worker {
    worker.(alive := false)
  }

  /** A worker publishes its next event; a publish that fails for good ends its thread. */
  function AfterPublish(y: System, w: string, attempts: seq<Attempt>): System
    requires Enabled(y, PublishEvent(w, attempts))
  {
    var t := TaskOf(y, w);
    var y' := y.(events := y.events + Sent(t.events[t.sent], attempts));
    var worker := WorkerOf(y, w);
    SetWorker(y', w, if Succeeds(attempts) then worker.(task := [t.(sent := t.sent + 1)]) else Dead(worker))
  }

  /** The writer's batch is in the table, or the failure ends the process and nothing has changed. */
  function AfterWrite(y: System, s: string, failure: Failure): System
    requires Enabled(y, WriteEvents(s, failure))
  {
    var batch := StorerOf(y, s).batch;
    var es := EventsAt(y.events, batch);
    if WriteSucceeds(es, failure) then SetStorer(y.(table := Written(y.table, es)), s, Acking(batch))
    else SetStorer(y, s, NEW_STORER)
  }

  function Next(y: System, step: Step): System
    requires Enabled(y, step)
  {
    match step
    case Capture => y.(frames := y.frames + 1)
    case FetchFrames(w, count) =>
      var hi := ReadUpTo(y.frameGroup, y.frames, count);
      var worker := WorkerOf(y, w);
      SetWorker(y.(frameGroup := Delivered(y.frameGroup, hi)), w,
                worker.(inbox := worker.inbox + Span(y.frameGroup.cursor, hi)))
    case ReclaimFrame(w, frame) =>
      var worker := WorkerOf(y, w);
      SetWorker(y, w, worker.(inbox := worker.inbox + [frame]))
    case StartFrame(w, es) =>
      var worker := WorkerOf(y, w);
      SetWorker(y.(issued := Issued(y.issued, es)), w,
                worker.(inbox := worker.inbox[1..], task := [Task(worker.inbox[0], es, 0)]))
    case PublishEvent(w, attempts) => AfterPublish(y, w, attempts)
    case AckFrame(w) =>
      var t := TaskOf(y, w);
      SetWorker(y.(frameGroup := Brokers.Acked(y.frameGroup, t.frame), completed := y.completed + [t]), w,
                WorkerOf(y, w).(task := []))
    case ThreadFails(w) => SetWorker(y, w, Dead(WorkerOf(y, w)))
    case WorkerCrash(w) => SetWorker(y, w, NEW_WORKER)
    case FetchEvents(s, count) =>
      var hi := ReadUpTo(y.eventGroup, |y.events|, count);
      SetStorer(y.(eventGroup := Delivered(y.eventGroup, hi)), s,
                if hi == y.eventGroup.cursor then NEW_STORER else Holding(Span(y.eventGroup.cursor, hi)))
    case ReclaimEvent(s, event) => SetStorer(y, s, Holding([event]))
    case WriteEvents(s, failure) => AfterWrite(y, s, failure)
    case AckEvent(s) =>
      var rest := StorerOf(y, s).rest;
      SetStorer(y.(eventGroup := Brokers.Acked(y.eventGroup, rest[0])), s, Acking(rest[1..]))
    case StorerCrash(s) => SetStorer(y, s, NEW_STORER)
  }

  // ---- What every state satisfies ----

  /** Undelivered, pending and acknowledged messages partition each stream. */
  ghost predicate StreamsOk(y: System) {
    Partitioned(y.frameGroup, y.frames) && Partitioned(y.eventGroup, |y.events|)
  }

  ghost predicate AllIssued(m: map<string, TrackEvent>, es: seq<TrackEvent>) {
    forall i | 0 <= i < |es| :: es[i].eventId in m && m[es[i].eventId] == es[i]
  }

  predicate AllIn(es: seq<TrackEvent>, log: seq<TrackEvent>) {
    forall i | 0 <= i < |es| :: es[i] in log
  }

  /** A worker's frames have been delivered, and what it counts as sent is in the stream. */
  ghost predicate WorkerOk(y: System, worker: Worker) {
    && |worker.task| <= 1
    && (forall i | 0 <= i < |worker.inbox| :: worker.inbox[i] < y.frameGroup.cursor)
    && (forall t | t in worker.task ::
          && t.frame < y.frameGroup.cursor && t.sent <= |t.events|
          && AllIn(t.events[..t.sent], y.events) && AllIssued(y.issued, t.events))
  }

  /** A message's event has its row. */
  predicate HasRow(y: System, k: nat) {
    k < |y.events| && y.events[k].eventId in y.table && y.table[y.events[k].eventId] == RowOf(y.events[k])
  }

  /** A writer's messages have been delivered, and what it is about to acknowledge is in the table. */
  ghost predicate StorerOk(y: System, storer: Storer) {
    match storer
    case Holding(batch) => forall i | 0 <= i < |batch| :: batch[i] < y.eventGroup.cursor
    case Acking(rest) => forall i | 0 <= i < |rest| :: rest[i] < y.eventGroup.cursor && HasRow(y, rest[i])
  }

  /** Some processing of the frame ran to its end. */
  predicate Completed(y: System, frame: nat, k: nat) {
    k < |y.completed| && y.completed[k].frame == frame
  }

  /** Every finished processing of a frame has published all its events. */
  ghost predicate CompletedOk(y: System) {
    && (forall k | 0 <= k < |y.completed| ::
          AllIn(y.completed[k].events, y.events) && AllIssued(y.issued, y.completed[k].events))
    && (forall f: nat | f in y.frameGroup.acked :: exists k: nat :: Completed(y, f, k))
  }

  ghost predicate RowsOk(y: System) {
    && AllIssued(y.issued, y.events)
    && (forall id | id in y.table :: id in y.issued && y.table[id] == RowOf(y.issued[id]))
    && (forall k | k in y.eventGroup.acked :: HasRow(y, k))
  }

  ghost predicate WorkersOk(y: System) {
    forall w | w in y.workers :: WorkerOk(y, y.workers[w])
  }

  ghost predicate StorersOk(y: System) {
    forall s | s in y.storers :: StorerOk(y, y.storers[s])
  }

  ghost predicate Inv(y: System) {
    StreamsOk(y) && WorkersOk(y) && StorersOk(y) && CompletedOk(y) && RowsOk(y)
  }

  // ---- Growth ----

  ghost predicate RowsKept(t: Table, u: Table) {
    forall id | id in t :: id in u && u[id] == t[id]
  }

  ghost predicate IssuedKept(m: map<string, TrackEvent>, n: map<string, TrackEvent>) {
    forall id | id in m :: id in n && n[id] == m[id]
  }

  ghost predicate GroupGrown(g: Group, h: Group) {
    g.cursor <= h.cursor && g.acked <= h.acked
  }

  /** Nothing published, stored, acknowledged or recorded is ever taken back. */
  ghost predicate Grown(y: System, z: System) {
    && y.frames <= z.frames && GroupGrown(y.frameGroup, z.frameGroup)
    && y.events <= z.events && GroupGrown(y.eventGroup, z.eventGroup)
    && RowsKept(y.table, z.table) && IssuedKept(y.issued, z.issued) && y.completed <= z.completed
  }

  lemma AllInGrows(es: seq<TrackEvent>, log: seq<TrackEvent>, longer: seq<TrackEvent>)
    requires AllIn(es, log) && log <= longer
    ensures AllIn(es, longer)
  {
    forall i | 0 <= i < |es|
      ensures es[i] in longer
    {
      var k :| 0 <= k < |log| && log[k] == es[i];
      assert longer[k] == es[i];
    }
  }

  lemma HasRowGrows(y: System, z: System, k: nat)
    requires Grown(y, z) && HasRow(y, k)
    ensures HasRow(z, k)
  {
    assert z.events[k] == y.events[k];
  }

  lemma WorkerGrows(y: System, z: System, worker: Worker)
    requires Grown(y, z) && WorkerOk(y, worker)
    ensures WorkerOk(z, worker)
  {
    forall t | t in worker.task
      ensures AllIn(t.events[..t.sent], z.events) && AllIssued(z.issued, t.events)
    {
      AllInGrows(t.events[..t.sent], y.events, z.events);
    }
    hide AllIn;
  }

  lemma StorerGrows(y: System, z: System, storer: Storer)
    requires Grown(y, z) && StorerOk(y, storer)
    ensures StorerOk(z, storer)
  {
    if storer.Acking? {
      forall i | 0 <= i < |storer.rest|
        ensures HasRow(z, storer.rest[i])
      {
        HasRowGrows(y, z, storer.rest[i]);
      }
    }
  }

  /** A step that only grows the shared state keeps what the processes rely on. */
  lemma ProcessesGrow(y: System, z: System)
    requires Grown(y, z) && WorkersOk(y) && StorersOk(y) && y.workers == z.workers && y.storers == z.storers
    ensures WorkersOk(z) && StorersOk(z)
  {
    forall w | w in z.workers
      ensures WorkerOk(z, z.workers[w])
    {
      WorkerGrows(y, z, z.workers[w]);
    }
    forall s | s in z.storers
      ensures StorerOk(z, z.storers[s])
    {
      StorerGrows(y, z, z.storers[s]);
    }
    hide WorkerOk, StorerOk, Grown;
  }

  /** What is completed stays so when only the streams grow. */
  lemma CompletedGrows(y: System, z: System)
    requires Grown(y, z) && CompletedOk(y) && y.completed == z.completed && y.frameGroup.acked == z.frameGroup.acked
    ensures CompletedOk(z)
  {
    forall k | 0 <= k < |z.completed|
      ensures AllIn(z.completed[k].events, z.events) && AllIssued(z.issued, z.completed[k].events)
    {
      AllInGrows(y.completed[k].events, y.events, z.events);
    }
    forall f: nat | f in z.frameGroup.acked
      ensures exists k: nat :: Completed(z, f, k)
    {
      var k: nat :| Completed(y, f, k);
      assert Completed(z, f, k);
    }
    hide AllIn;
  }

  lemma SetWorkerKeeps(y: System, w: string, worker: Worker)
    requires Inv(y) && WorkerOk(y, worker)
    ensures Inv(SetWorker(y, w, worker)) && Grown(y, SetWorker(y, w, worker))
  {
    var z := SetWorker(y, w, worker);
    forall v | v in z.workers
      ensures WorkerOk(z, z.workers[v])
    {
      assert WorkerOk(y, z.workers[v]);
    }
    forall s | s in z.storers
      ensures StorerOk(z, z.storers[s])
    {
      StorerGrows(y, z, z.storers[s]);
    }
    CompletedGrows(y, z);
  }

  lemma SetStorerKeeps(y: System, s: string, storer: Storer)
    requires Inv(y) && StorerOk(y, storer)
    ensures Inv(SetStorer(y, s, storer)) && Grown(y, SetStorer(y, s, storer))
  {
    var z := SetStorer(y, s, storer);
    forall v | v in z.storers
      ensures StorerOk(z, z.storers[v])
    {
      StorerGrows(y, z, z.storers[v]);
    }
    forall w | w in z.workers
      ensures WorkerOk(z, z.workers[w])
    {
      WorkerGrows(y, z, z.workers[w]);
    }
    CompletedGrows(y, z);
  }

  // ---- One lemma per step ----

  ghost predicate Keeps(y: System, z: System) {
    Inv(z) && Grown(y, z)
  }

  lemma KeepsTwice(x: System, y: System, z: System)
    requires Grown(x, y) && Grown(y, z)
    ensures Grown(x, z)
  {
  }

  lemma CurrentWorkerOk(y: System, w: string)
    requires Inv(y)
    ensures WorkerOk(y, WorkerOf(y, w))
  {
  }

  lemma CurrentStorerOk(y: System, s: string)
    requires Inv(y)
    ensures StorerOk(y, StorerOf(y, s))
  {
  }

  lemma CaptureKeeps(y: System)
    requires Inv(y)
    ensures Keeps(y, Next(y, Capture))
  {
    var z := Next(y, Capture);
    AppendKeepsPartition(y.frameGroup, y.frames, 1);
    ProcessesGrow(y, z);
    CompletedGrows(y, z);
  }

  lemma FetchFramesKeeps(y: System, w: string, count: nat)
    requires Inv(y) && Enabled(y, FetchFrames(w, count))
    ensures Keeps(y, Next(y, FetchFrames(w, count)))
  {
    var hi := ReadUpTo(y.frameGroup, y.frames, count);
    var z := y.(frameGroup := Delivered(y.frameGroup, hi));
    DeliveryKeepsPartition(y.frameGroup, y.frames, count);
    ProcessesGrow(y, z);
    CompletedGrows(y, z);
    CurrentWorkerOk(z, w);
    var worker := WorkerOf(y, w).(inbox := WorkerOf(y, w).inbox + Span(y.frameGroup.cursor, hi));
    SetWorkerKeeps(z, w, worker);
    KeepsTwice(y, z, SetWorker(z, w, worker));
  }

  lemma ReclaimFrameKeeps(y: System, w: string, frame: nat)
    requires Inv(y) && Enabled(y, ReclaimFrame(w, frame))
    ensures Keeps(y, Next(y, ReclaimFrame(w, frame)))
  {
    CurrentWorkerOk(y, w);
    SetWorkerKeeps(y, w, WorkerOf(y, w).(inbox := WorkerOf(y, w).inbox + [frame]));
  }

  /** Issuing new ids records these events and keeps every earlier record. */
  lemma {:induction false} IssuedGrows(m: map<string, TrackEvent>, es: seq<TrackEvent>)
    requires DistinctIds(es) && forall i | 0 <= i < |es| :: es[i].eventId !in m
    ensures IssuedKept(m, Issued(m, es)) && AllIssued(Issued(m, es), es)
  {
    if es != [] {
      IssuedGrows(m, es[..|es| - 1]);
    }
  }

  lemma IssuingKeeps(y: System, es: seq<TrackEvent>)
    requires Inv(y) && AllNew(y, es)
    ensures Keeps(y, y.(issued := Issued(y.issued, es)))
    ensures AllIssued(Issued(y.issued, es), es)
  {
    var z := y.(issued := Issued(y.issued, es));
    IssuedGrows(y.issued, es);
    ProcessesGrow(y, z);
    CompletedGrows(y, z);
  }

  lemma StartFrameKeeps(y: System, w: string, es: seq<TrackEvent>)
    requires Inv(y) && Enabled(y, StartFrame(w, es))
    ensures Keeps(y, Next(y, StartFrame(w, es)))
  {
    var z := y.(issued := Issued(y.issued, es));
    IssuingKeeps(y, es);
    CurrentWorkerOk(z, w);
    var inbox := WorkerOf(y, w).inbox;
    var worker := WorkerOf(y, w).(inbox := inbox[1..], task := [Task(inbox[0], es, 0)]);
    SetWorkerKeeps(z, w, worker);
    KeepsTwice(y, z, SetWorker(z, w, worker));
  }

  /** Appending copies of an issued event. */
  lemma AppendingKeeps(y: System, e: TrackEvent, copies: seq<TrackEvent>)
    requires Inv(y) && e.eventId in y.issued && y.issued[e.eventId] == e
    requires forall k | 0 <= k < |copies| :: copies[k] == e
    ensures Keeps(y, y.(events := y.events + copies))
  {
    var z := y.(events := y.events + copies);
    AppendKeepsPartition(y.eventGroup, |y.events|, |copies|);
    ProcessesGrow(y, z);
    CompletedGrows(y, z);
    forall k | k in z.eventGroup.acked
      ensures HasRow(z, k)
    {
      HasRowGrows(y, z, k);
    }
  }

  lemma OneMoreIn(es: seq<TrackEvent>, n: nat, log: seq<TrackEvent>)
    requires n < |es| && AllIn(es[..n], log) && es[n] in log
    ensures AllIn(es[..n + 1], log)
  {
    var longer := es[..n + 1];
    forall i | 0 <= i < |longer|
      ensures longer[i] in log
    {
      assert i < n ==> es[..n][i] == longer[i];
    }
  }

  lemma PublishKeeps(y: System, w: string, attempts: seq<Attempt>)
    requires Inv(y) && Enabled(y, PublishEvent(w, attempts))
    ensures Keeps(y, Next(y, PublishEvent(w, attempts)))
  {
    var t := TaskOf(y, w);
    var e := t.events[t.sent];
    CurrentWorkerOk(y, w);
    PublishAppendsCopies(e, attempts);
    var z := y.(events := y.events + Sent(e, attempts));
    AppendingKeeps(y, e, Sent(e, attempts));
    CurrentWorkerOk(z, w);
    var was := WorkerOf(y, w);
    var worker := if Succeeds(attempts) then was.(task := [t.(sent := t.sent + 1)]) else Dead(was);
    if Succeeds(attempts) {
      assert z.events[|y.events|] == e;
      OneMoreIn(t.events, t.sent, z.events);
    }
    SetWorkerKeeps(z, w, worker);
    KeepsTwice(y, z, SetWorker(z, w, worker));
  }

  lemma CompletingKeeps(y: System, t: Task)
    requires Inv(y) && t.frame < y.frameGroup.cursor && AllIn(t.events, y.events) && AllIssued(y.issued, t.events)
    ensures Keeps(y, y.(frameGroup := Brokers.Acked(y.frameGroup, t.frame), completed := y.completed + [t]))
  {
    var z := y.(frameGroup := Brokers.Acked(y.frameGroup, t.frame), completed := y.completed + [t]);
    AckKeepsPartition(y.frameGroup, y.frames, t.frame);
    ProcessesGrow(y, z);
    forall f: nat | f in z.frameGroup.acked
      ensures exists k: nat :: Completed(z, f, k)
    {
      if f in y.frameGroup.acked {
        var k: nat :| Completed(y, f, k);
        assert Completed(z, f, k);
      } else {
        assert Completed(z, f, |y.completed|);
      }
    }
  }

  lemma AckFrameKeeps(y: System, w: string)
    requires Inv(y) && Enabled(y, AckFrame(w))
    ensures Keeps(y, Next(y, AckFrame(w)))
  {
    var t := TaskOf(y, w);
    CurrentWorkerOk(y, w);
    assert t.events[..t.sent] == t.events;
    var z := y.(frameGroup := Brokers.Acked(y.frameGroup, t.frame), completed := y.completed + [t]);
    CompletingKeeps(y, t);
    CurrentWorkerOk(z, w);
    SetWorkerKeeps(z, w, WorkerOf(y, w).(task := []));
    KeepsTwice(y, z, SetWorker(z, w, WorkerOf(y, w).(task := [])));
  }

  lemma ThreadFailsKeeps(y: System, w: string)
    requires Inv(y)
    ensures Keeps(y, Next(y, ThreadFails(w)))
  {
    CurrentWorkerOk(y, w);
    SetWorkerKeeps(y, w, Dead(WorkerOf(y, w)));
  }

  lemma FetchEventsKeeps(y: System, s: string, count: nat)
    requires Inv(y) && Enabled(y, FetchEvents(s, count))
    ensures Keeps(y, Next(y, FetchEvents(s, count)))
  {
    var hi := ReadUpTo(y.eventGroup, |y.events|, count);
    var z := y.(eventGroup := Delivered(y.eventGroup, hi));
    DeliveryKeepsPartition(y.eventGroup, |y.events|, count);
    ProcessesGrow(y, z);
    CompletedGrows(y, z);
    var storer := if hi == y.eventGroup.cursor then NEW_STORER else Holding(Span(y.eventGroup.cursor, hi));
    SetStorerKeeps(z, s, storer);
    KeepsTwice(y, z, SetStorer(z, s, storer));
  }

  lemma {:induction false} RowsAreIssued(m: map<string, TrackEvent>, t: Table, es: seq<TrackEvent>)
    requires AllIssued(m, es) && forall id | id in t :: id in m && t[id] == RowOf(m[id])
    ensures RowsKept(t, Written(t, es))
    ensures forall id | id in Written(t, es) :: id in m && Written(t, es)[id] == RowOf(m[id])
    ensures forall i | 0 <= i < |es| :: es[i].eventId in Written(t, es)
  {
    if es != [] {
      RowsAreIssued(m, t, es[..|es| - 1]);
    }
  }

  /** Writing issued events adds their rows, each the row of the event its id was issued for. */
  lemma WritingKeeps(y: System, es: seq<TrackEvent>)
    requires Inv(y) && AllIssued(y.issued, es)
    ensures var z := y.(table := Written(y.table, es));
            && Keeps(y, z)
            && forall i | 0 <= i < |es| :: es[i].eventId in z.table && z.table[es[i].eventId] == RowOf(es[i])
  {
    var z := y.(table := Written(y.table, es));
    RowsAreIssued(y.issued, y.table, es);
    ProcessesGrow(y, z);
    CompletedGrows(y, z);
    forall k | k in z.eventGroup.acked
      ensures HasRow(z, k)
    {
      HasRowGrows(y, z, k);
    }
  }

  lemma WriteKeeps(y: System, s: string, failure: Failure)
    requires Inv(y) && Enabled(y, WriteEvents(s, failure))
    ensures Keeps(y, Next(y, WriteEvents(s, failure)))
  {
    var batch := StorerOf(y, s).batch;
    var es := EventsAt(y.events, batch);
    if WriteSucceeds(es, failure) {
      var z := y.(table := Written(y.table, es));
      CurrentStorerOk(y, s);
      WritingKeeps(y, es);
      forall i | 0 <= i < |batch|
        ensures HasRow(z, batch[i])
      {
        assert es[i] == y.events[batch[i]];
      }
      SetStorerKeeps(z, s, Acking(batch));
      KeepsTwice(y, z, SetStorer(z, s, Acking(batch)));
    } else {
      SetStorerKeeps(y, s, NEW_STORER);
    }
  }

  lemma AckEventKeeps(y: System, s: string)
    requires Inv(y) && Enabled(y, AckEvent(s))
    ensures Keeps(y, Next(y, AckEvent(s)))
  {
    var rest := StorerOf(y, s).rest;
    CurrentStorerOk(y, s);
    var z := y.(eventGroup := Brokers.Acked(y.eventGroup, rest[0]));
    AckKeepsPartition(y.eventGroup, |y.events|, rest[0]);
    ProcessesGrow(y, z);
    CompletedGrows(y, z);
    CurrentStorerOk(z, s);
    SetStorerKeeps(z, s, Acking(rest[1..]));
    KeepsTwice(y, z, SetStorer(z, s, Acking(rest[1..])));
  }

  /**
   * Every step of every process, including dead threads, crashes, redelivery and failed writes, keeps the invariant
   * and takes nothing back.
   */
  lemma StepKeeps(y: System, step: Step)
    requires Inv(y) && Enabled(y, step)
    ensures Keeps(y, Next(y, step))
  {
    match step
    case Capture => CaptureKeeps(y);
    case FetchFrames(w, count) => FetchFramesKeeps(y, w, count);
    case ReclaimFrame(w, frame) => ReclaimFrameKeeps(y, w, frame);
    case StartFrame(w, es) => StartFrameKeeps(y, w, es);
    case PublishEvent(w, attempts) => PublishKeeps(y, w, attempts);
    case AckFrame(w) => AckFrameKeeps(y, w);
    case ThreadFails(w) => ThreadFailsKeeps(y, w);
    case WorkerCrash(w) => SetWorkerKeeps(y, w, NEW_WORKER);
    case FetchEvents(s, count) => FetchEventsKeeps(y, s, count);
    case ReclaimEvent(s, event) => SetStorerKeeps(y, s, Holding([event]));
    case WriteEvents(s, failure) => WriteKeeps(y, s, failure);
    case AckEvent(s) => AckEventKeeps(y, s);
    case StorerCrash(s) => SetStorerKeeps(y, s, NEW_STORER);
  }

  // ---- Runs ----

  ghost predicate Possible(y: System, steps: seq<Step>)
    decreases |steps|
  {
    steps == [] || (Enabled(y, steps[0]) && Possible(Next(y, steps[0]), steps[1..]))
  }

  function After(y: System, steps: seq<Step>): System
    requires Possible(y, steps)
    decreases |steps|
  {
    if steps == [] then y else After(Next(y, steps[0]), steps[1..])
  }

  lemma {:induction false} RunKeeps(y: System, steps: seq<Step>)
    requires Inv(y) && Possible(y, steps)
    ensures Keeps(y, After(y, steps))
    decreases |steps|
  {
    if steps != [] {
      StepKeeps(y, steps[0]);
      RunKeeps(Next(y, steps[0]), steps[1..]);
      KeepsTwice(y, Next(y, steps[0]), After(y, steps));
    }
  }

  lemma {:induction false} AfterAppend(y: System, a: seq<Step>, b: seq<Step>)
    requires Possible(y, a) && Possible(After(y, a), b)
    ensures Possible(y, a + b) && After(y, a + b) == After(After(y, a), b)
    decreases |a|
  {
    if a == [] {
      assert a + b == b;
    } else {
      AfterAppend(Next(y, a[0]), a[1..], b);
      assert (a + b)[0] == a[0] && (a + b)[1..] == a[1..] + b;
    }
  }

  lemma OneMoreStep(y: System, run: seq<Step>, step: Step)
    requires Possible(y, run) && Enabled(After(y, run), step)
    ensures Possible(y, run + [step]) && After(y, run + [step]) == Next(After(y, run), step)
  {
    assert [step][1..] == [];
    AfterAppend(y, run, [step]);
  }

  lemma StartIsOk()
    ensures Inv(START)
  {
  }

  /** Undelivered, pending and acknowledged messages partition both streams after every run: nothing is lost. */
  lemma NothingIsLost(steps: seq<Step>)
    requires Possible(START, steps)
    ensures var y := After(START, steps);
            Partitioned(y.frameGroup, y.frames) && Partitioned(y.eventGroup, |y.events|)
  {
    StartIsOk();
    RunKeeps(START, steps);
  }

  /** An acknowledged frame was processed to the end once, and all events of that processing are in the stream. */
  lemma AckedFrameIsPublished(steps: seq<Step>, frame: nat) returns (k: nat)
    requires Possible(START, steps) && frame in After(START, steps).frameGroup.acked
    ensures var y := After(START, steps);
            Completed(y, frame, k) && AllIn(y.completed[k].events, y.events)
  {
    StartIsOk();
    RunKeeps(START, steps);
    hide After, Possible;
    k :| Completed(After(START, steps), frame, k);
  }

  /** An acknowledged event has its own row in the table. */
  lemma AckedEventIsStored(steps: seq<Step>, k: nat)
    requires Possible(START, steps) && k in After(START, steps).eventGroup.acked
    ensures HasRow(After(START, steps), k)
  {
    StartIsOk();
    RunKeeps(START, steps);
  }

  /** Once the event stream is acknowledged in full, an acknowledged frame has all its events in the table. */
  lemma AckedFrameIsStored(steps: seq<Step>, frame: nat) returns (k: nat)
    requires Possible(START, steps) && frame in After(START, steps).frameGroup.acked
    requires forall i: nat | i < |After(START, steps).events| :: i in After(START, steps).eventGroup.acked
    ensures var y := After(START, steps);
            && Completed(y, frame, k)
            && forall e | e in y.completed[k].events :: e.eventId in y.table && y.table[e.eventId] == RowOf(e)
  {
    k := AckedFrameIsPublished(steps, frame);
    var y := After(START, steps);
    forall e | e in y.completed[k].events
      ensures e.eventId in y.table && y.table[e.eventId] == RowOf(e)
    {
      var j :| 0 <= j < |y.completed[k].events| && y.completed[k].events[j] == e;
      var i :| 0 <= i < |y.events| && y.events[i] == e;
      AckedEventIsStored(steps, i);
    }
  }

  /** A row, once written, is never changed or removed, however often its event is published or written again. */
  lemma FirstRowStays(a: seq<Step>, b: seq<Step>)
    requires Possible(START, a) && Possible(After(START, a), b)
    ensures Possible(START, a + b)
    ensures RowsKept(After(START, a).table, After(START, a + b).table)
  {
    StartIsOk();
    AfterAppend(START, a, b);
    RunKeeps(START, a);
    RunKeeps(After(START, a), b);
  }

  /** Messages that carry the same event id carry the same event, so its one row is the row of each of them. */
  lemma OneRowPerEvent(steps: seq<Step>, i: nat, j: nat)
    requires Possible(START, steps)
    requires i < |After(START, steps).events| && j < |After(START, steps).events|
    requires After(START, steps).events[i].eventId == After(START, steps).events[j].eventId
    ensures var y := After(START, steps);
            && y.events[i] == y.events[j]
            && (y.events[i].eventId in y.table ==> HasRow(y, i) && HasRow(y, j))
  {
    StartIsOk();
    RunKeeps(START, steps);
  }
}
