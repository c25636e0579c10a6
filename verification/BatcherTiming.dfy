// On an ideal clock the batches and their times do not depend on how often the loop polls.

module BatcherTiming {
  import opened RealFacts
  import opened Wrappers
  import opened Batchers

  /** An item and the time it is submitted. */
  datatype Arrival<T> = Arrival(item: T, at: real)

  /** What the environment and the configuration fix: time passes only in queue reads and in the callback. */
  datatype Setting<!T> = Setting(arrivals: seq<Arrival<T>>, maxWait: real, max: nat, cost: seq<T> -> real)

  /** A batch, the time its first item was taken and the time it was handed on. */
  datatype Flushed<T> = Flushed(batch: seq<T>, startedAt: real, at: real)

  datatype Clocked<T> = Clocked(now: real, next: nat, inner: Loop<T>, log: seq<Flushed<T>>)

  ghost predicate Regular<T(!new)>(s: Setting<T>) {
    && s.max >= 1 && s.maxWait >= 0.0
    && (forall i, j | 0 <= i < j < |s.arrivals| :: s.arrivals[i].at <= s.arrivals[j].at)
    && (forall b: seq<T> :: s.cost(b) >= 0.0)
  }

  // ---- The polling loop ----

  /** The queue holds the next item at the end of a read with this timeout. */
  predicate Arrives<T>(s: Setting<T>, c: Clocked<T>, timeout: real) {
    c.next < |s.arrivals| && s.arrivals[c.next].at <= c.now + timeout
  }

  /** After the loop body: a flush is logged, and the callback takes its time. */
  function Settled<T>(s: Setting<T>, c: Clocked<T>, now: real, next: nat, inner: Loop<T>): Clocked<T> {
    if |inner.flushed| > |c.inner.flushed| then
      var batch := inner.flushed[|inner.flushed| - 1];
      var started := if c.inner.startedAt.Some? then c.inner.startedAt.value else now;
      Clocked(now + s.cost(batch), next, inner, c.log + [Flushed(batch, started, now)])
    else Clocked(now, next, inner, c.log)
  }

  /** One iteration with the given poll interval. */
  function Poll<T>(s: Setting<T>, cap: real, c: Clocked<T>): Clocked<T>
    requires cap > 0.0 && Sound(c.inner, s.max)
  {
    var t := Timeout(s.maxWait, c.inner.startedAt, c.now, cap);
    if Arrives(s, c, t) then
      var now := Max(c.now, s.arrivals[c.next].at);
      Settled(s, c, now, c.next + 1, OnItem(s.max, c.inner, s.arrivals[c.next].item, now))
    else Settled(s, c, c.now + t, c.next, OnEmpty(s.maxWait, c.inner, c.now + t))
  }

  // ---- The reference: one batch at a time ----

  function Items<T>(s: Setting<T>, lo: nat, k: nat): (b: seq<T>)
    requires lo + k <= |s.arrivals|
    ensures |b| == k
  {
    seq(k, i requires 0 <= i < k => s.arrivals[lo + i].item)
  }

  /** The size of the batch that has k items from lo on: more join while there is room and they come in time. */
  function Fill<T>(s: Setting<T>, lo: nat, k: nat, deadline: real): (n: nat)
    requires lo + k <= |s.arrivals| && k <= s.max
    ensures k <= n <= s.max && lo + n <= |s.arrivals|
    decreases s.max - k
  {
    if k < s.max && lo + k < |s.arrivals| && s.arrivals[lo + k].at <= deadline then Fill(s, lo, k + 1, deadline) else k
  }

  /** A batch leaves when it is full, which is when its last item comes, or else exactly at its deadline. */
  function LeavesAt<T>(s: Setting<T>, lo: nat, n: nat, started: real): real
    requires 1 <= n && lo + n <= |s.arrivals|
  {
    if n == s.max then Max(started, s.arrivals[lo + n - 1].at) else started + s.maxWait
  }

  /** The flushes of a batch that has k items from lo on, and of everything after it. */
  function BatchFrom<T>(s: Setting<T>, lo: nat, k: nat, started: real): seq<Flushed<T>>
    requires 1 <= k <= s.max && lo + k <= |s.arrivals|
    decreases |s.arrivals| - lo, 0
  {
    var n := Fill(s, lo, k, started + s.maxWait);
    var at := LeavesAt(s, lo, n, started);
    [Flushed(Items(s, lo, n), started, at)] + From(s, lo + n, at + s.cost(Items(s, lo, n)))
  }

  /** The flushes of all items from lo on, when the batcher is free from the given time. */
  function From<T>(s: Setting<T>, lo: nat, free: real): seq<Flushed<T>>
    requires lo <= |s.arrivals| && s.max >= 1
    decreases |s.arrivals| - lo, 1
  {
    if lo == |s.arrivals| then [] else BatchFrom(s, lo, 1, Max(free, s.arrivals[lo].at))
  }

  // ---- The loop refines the reference ----

  /** The pending batch is the items before next, started before now, not overdue, and the next has not been missed. */
  ghost predicate PendingOk<T(!new)>(s: Setting<T>, c: Clocked<T>)
    requires c.next <= |s.arrivals| && Sound(c.inner, s.max)
  {
    c.inner.pending != [] ==>
      && |c.inner.pending| <= c.next
      && c.inner.pending == Items(s, c.next - |c.inner.pending|, |c.inner.pending|)
      && c.inner.startedAt.value <= c.now <= c.inner.startedAt.value + s.maxWait
      && (c.next < |s.arrivals| ==> c.now <= Max(c.inner.startedAt.value, s.arrivals[c.next].at))
  }

  ghost predicate Consistent<T(!new)>(s: Setting<T>, c: Clocked<T>) {
    Regular(s) && c.next <= |s.arrivals| && Sound(c.inner, s.max) && PendingOk(s, c)
  }

  /** The whole log the reference promises from this state on. */
  function Promised<T(!new)>(s: Setting<T>, c: Clocked<T>): seq<Flushed<T>>
    requires s.max >= 1 && c.next <= |s.arrivals| && Sound(c.inner, s.max) && |c.inner.pending| <= c.next
  {
    c.log + if c.inner.pending == [] then From(s, c.next, c.now)
            else BatchFrom(s, c.next - |c.inner.pending|, |c.inner.pending|, c.inner.startedAt.value)
  }

  lemma ItemsMore<T>(s: Setting<T>, lo: nat, k: nat)
    requires lo + k < |s.arrivals|
    ensures Items(s, lo, k + 1) == Items(s, lo, k) + [s.arrivals[lo + k].item]
  {
  }

  lemma FillStops<T>(s: Setting<T>, lo: nat, k: nat, deadline: real)
    requires lo + k <= |s.arrivals| && k <= s.max
    requires k == s.max || lo + k == |s.arrivals| || s.arrivals[lo + k].at > deadline
    ensures Fill(s, lo, k, deadline) == k
  {
  }

  /** Nothing pending and nothing arrives. */
  lemma IdlePoll<T(!new)>(s: Setting<T>, cap: real, c: Clocked<T>)
    requires cap > 0.0 && Consistent(s, c) && c.inner.pending == [] && !Arrives(s, c, cap)
    ensures Poll(s, cap, c) == Clocked(c.now + cap, c.next, c.inner, c.log)
    ensures Consistent(s, Poll(s, cap, c)) && Promised(s, Poll(s, cap, c)) == Promised(s, c)
  {
  }

  /** A batch waits and its time has not come. */
  lemma WaitingPoll<T(!new)>(s: Setting<T>, cap: real, c: Clocked<T>)
    requires cap > 0.0 && Consistent(s, c) && c.inner.pending != []
    requires !Arrives(s, c, cap) && c.now + cap < c.inner.startedAt.value + s.maxWait
    ensures Poll(s, cap, c) == Clocked(c.now + cap, c.next, c.inner, c.log)
    ensures Consistent(s, Poll(s, cap, c)) && Promised(s, Poll(s, cap, c)) == Promised(s, c)
  {
    hide BatchFrom, From;
  }

  /** A batch that nothing joins any more leaves at its deadline. */
  lemma DueBatch<T>(s: Setting<T>, lo: nat, k: nat, started: real)
    requires 1 <= k < s.max && lo + k <= |s.arrivals|
    requires lo + k == |s.arrivals| || s.arrivals[lo + k].at > started + s.maxWait
    ensures var deadline, batch := started + s.maxWait, Items(s, lo, k);
            BatchFrom(s, lo, k, started)
            == [Flushed(batch, started, deadline)] + From(s, lo + k, deadline + s.cost(batch))
  {
    FillStops(s, lo, k, started + s.maxWait);
    hide From, Items;
  }

  /** A poll at whose end a batch is due flushes it. */
  lemma PollFlushes<T(!new)>(s: Setting<T>, cap: real, c: Clocked<T>)
    requires cap > 0.0 && Consistent(s, c) && c.inner.pending != []
    requires c.now + cap >= c.inner.startedAt.value + s.maxWait
    requires !Arrives(s, c, c.inner.startedAt.value + s.maxWait - c.now)
    ensures var started, batch := c.inner.startedAt.value, c.inner.pending;
            var deadline := started + s.maxWait;
            Poll(s, cap, c) == Clocked(deadline + s.cost(batch), c.next, Loop([], None, c.inner.flushed + [batch]),
                                       c.log + [Flushed(batch, started, deadline)])
  {
    hide Items;
  }

  /** A batch waits and its time comes before anything else. */
  lemma DuePoll<T(!new)>(s: Setting<T>, cap: real, c: Clocked<T>)
    requires cap > 0.0 && Consistent(s, c) && c.inner.pending != []
    requires c.now + cap >= c.inner.startedAt.value + s.maxWait
    requires !Arrives(s, c, c.inner.startedAt.value + s.maxWait - c.now)
    ensures Consistent(s, Poll(s, cap, c)) && Promised(s, Poll(s, cap, c)) == Promised(s, c)
    ensures Poll(s, cap, c).next == c.next && Poll(s, cap, c).inner.pending == []
  {
    hide Poll, BatchFrom, From, Items;
    var k := |c.inner.pending|;
    EmptyKeeps(s.maxWait, s.max, c.inner, c.inner.startedAt.value + s.maxWait);
    PollFlushes(s, cap, c);
    DueBatch(s, c.next - k, k, c.inner.startedAt.value);
  }

  /** The first item of a batch that has room for more. */
  lemma FirstOfMorePoll<T(!new)>(s: Setting<T>, cap: real, c: Clocked<T>)
    requires cap > 0.0 && Consistent(s, c) && c.inner.pending == [] && Arrives(s, c, cap) && s.max > 1
    ensures Consistent(s, Poll(s, cap, c)) && Promised(s, Poll(s, cap, c)) == Promised(s, c)
    ensures Poll(s, cap, c).next == c.next + 1
  {
    hide Fill, LeavesAt;
    var now, item := Max(c.now, s.arrivals[c.next].at), s.arrivals[c.next].item;
    ItemKeeps(s.max, c.inner, item, now);
    ItemsMore(s, c.next, 0);
    assert Items(s, c.next, 1) == [item];
    assert Poll(s, cap, c) == Clocked(now, c.next + 1, Loop([item], Some(now), c.inner.flushed), c.log);
  }

  /** The first item of a batch that is full at once. */
  lemma OnlyItemPoll<T(!new)>(s: Setting<T>, cap: real, c: Clocked<T>)
    requires cap > 0.0 && Consistent(s, c) && c.inner.pending == [] && Arrives(s, c, cap) && s.max == 1
    ensures Consistent(s, Poll(s, cap, c)) && Promised(s, Poll(s, cap, c)) == Promised(s, c)
    ensures Poll(s, cap, c).next == c.next + 1
  {
    var now, item := Max(c.now, s.arrivals[c.next].at), s.arrivals[c.next].item;
    ItemKeeps(s.max, c.inner, item, now);
    ItemsMore(s, c.next, 0);
    assert Items(s, c.next, 1) == [item];
    FillStops(s, c.next, 1, now + s.maxWait);
    var r := Poll(s, cap, c);
    assert r.log == c.log + [Flushed([item], now, now)];
    assert BatchFrom(s, c.next, 1, now) == [Flushed([item], now, now)] + From(s, c.next + 1, r.now);
  }

  /** The first item of a batch. */
  lemma FirstItemPoll<T(!new)>(s: Setting<T>, cap: real, c: Clocked<T>)
    requires cap > 0.0 && Consistent(s, c) && c.inner.pending == [] && Arrives(s, c, cap)
    ensures Consistent(s, Poll(s, cap, c)) && Promised(s, Poll(s, cap, c)) == Promised(s, c)
    ensures Poll(s, cap, c).next == c.next + 1
  {
    assert s.max >= 1;
    hide *;
    if s.max == 1 {
      OnlyItemPoll(s, cap, c);
    } else {
      FirstOfMorePoll(s, cap, c);
    }
  }

  /** A further item of a batch that still has room afterwards. */
  lemma JoiningPoll<T(!new)>(s: Setting<T>, cap: real, c: Clocked<T>)
    requires cap > 0.0 && Consistent(s, c) && c.inner.pending != [] && |c.inner.pending| + 1 < s.max
    requires Arrives(s, c, Timeout(s.maxWait, c.inner.startedAt, c.now, cap))
    ensures Consistent(s, Poll(s, cap, c)) && Promised(s, Poll(s, cap, c)) == Promised(s, c)
    ensures Poll(s, cap, c).next == c.next + 1
  {
    var started, k := c.inner.startedAt.value, |c.inner.pending|;
    var lo, now, item := c.next - k, Max(c.now, s.arrivals[c.next].at), s.arrivals[c.next].item;
    ItemKeeps(s.max, c.inner, item, now);
    ItemsMore(s, lo, k);
    assert Poll(s, cap, c)
        == Clocked(now, c.next + 1, Loop(c.inner.pending + [item], c.inner.startedAt, c.inner.flushed), c.log);
    assert Fill(s, lo, k, started + s.maxWait) == Fill(s, lo, k + 1, started + s.maxWait);
  }

  /** The item that fills a batch. */
  lemma FillingPoll<T(!new)>(s: Setting<T>, cap: real, c: Clocked<T>)
    requires cap > 0.0 && Consistent(s, c) && c.inner.pending != [] && |c.inner.pending| + 1 == s.max
    requires Arrives(s, c, Timeout(s.maxWait, c.inner.startedAt, c.now, cap))
    ensures Consistent(s, Poll(s, cap, c)) && Promised(s, Poll(s, cap, c)) == Promised(s, c)
    ensures Poll(s, cap, c).next == c.next + 1
  {
    var started, k := c.inner.startedAt.value, |c.inner.pending|;
    var lo, now, item := c.next - k, Max(c.now, s.arrivals[c.next].at), s.arrivals[c.next].item;
    ItemKeeps(s.max, c.inner, item, now);
    ItemsMore(s, lo, k);
    var r, batch := Poll(s, cap, c), c.inner.pending + [item];
    assert r == Clocked(now + s.cost(batch), c.next + 1, Loop([], None, c.inner.flushed + [batch]),
                        c.log + [Flushed(batch, started, now)]);
    assert now == Max(started, s.arrivals[c.next].at);
    FillStops(s, lo, k + 1, started + s.maxWait);
    assert Fill(s, lo, k, started + s.maxWait) == k + 1;
    hide Poll, Items, Fill, OnItem;
    assert BatchFrom(s, lo, k, started) == [Flushed(batch, started, now)] + From(s, c.next + 1, r.now);
  }

  /** One poll changes nothing of what is promised. */
  lemma PollKeeps<T(!new)>(s: Setting<T>, cap: real, c: Clocked<T>)
    requires cap > 0.0 && Consistent(s, c)
    ensures Consistent(s, Poll(s, cap, c)) && Promised(s, Poll(s, cap, c)) == Promised(s, c)
  {
    hide Poll, Promised, BatchFrom, From, Items;
    if c.inner.pending == [] {
      if Arrives(s, c, cap) {
        FirstItemPoll(s, cap, c);
      } else {
        IdlePoll(s, cap, c);
      }
    } else if Arrives(s, c, Timeout(s.maxWait, c.inner.startedAt, c.now, cap)) {
      if |c.inner.pending| + 1 == s.max {
        FillingPoll(s, cap, c);
      } else {
        JoiningPoll(s, cap, c);
      }
    } else if c.now + cap < c.inner.startedAt.value + s.maxWait {
      WaitingPoll(s, cap, c);
    } else {
      DuePoll(s, cap, c);
    }
  }

  /** The loop after n iterations. */
  ghost function Polled<T(!new)>(s: Setting<T>, cap: real, n: nat, c: Clocked<T>): (r: Clocked<T>)
    requires cap > 0.0 && Consistent(s, c)
    ensures Consistent(s, r) && Promised(s, r) == Promised(s, c)
  {
    if n == 0 then c
    else
      PollKeeps(s, cap, c);
      Polled(s, cap, n - 1, Poll(s, cap, c))
  }

  /** A poll is one pass of the batcher's loop; its clock is read when it asks for an item and when it has got one. */
  lemma PollIsIteration<T(!new)>(s: Setting<T>, cap: real, c: Clocked<T>) returns (e: Moment<T>)
    requires cap > 0.0 && Consistent(s, c)
    ensures !e.stop && e.asked == c.now
    ensures e.arrivals == if Arrives(s, c, Timeout(s.maxWait, c.inner.startedAt, c.now, cap))
                          then [s.arrivals[c.next].item] else []
    ensures Iterate(s.maxWait, s.max, Machine([], c.inner), e) == Machine([], Poll(s, cap, c).inner)
    ensures Poll(s, cap, c).next == c.next + |e.arrivals|
  {
    hide OnItem, OnEmpty, Timeout;
    var t := Timeout(s.maxWait, c.inner.startedAt, c.now, cap);
    if Arrives(s, c, t) {
      var item := s.arrivals[c.next].item;
      e := Moment(false, [item], c.now, Max(c.now, s.arrivals[c.next].at));
      assert [] + [item] == [item] && [item][1..] == [];
    } else {
      e := Moment(false, [], c.now, c.now + t);
    }
  }

  lemma ConsistentParts<T(!new)>(s: Setting<T>, c: Clocked<T>)
    requires Consistent(s, c)
    ensures c.next <= |s.arrivals| && Sound(c.inner, s.max)
  {
  }

  lemma ItemsFrom<T>(s: Setting<T>, lo: nat, first: seq<T>, k: nat)
    requires lo + |first| + k <= |s.arrivals|
    requires first == [] || (|first| == 1 && first[0] == s.arrivals[lo].item)
    ensures Items(s, lo, |first| + k) == first + Items(s, lo + |first|, k)
  {
  }

  lemma RanFirst<T>(maxWait: real, max: nat, m: Machine<T>, e: Moment<T>, rest: seq<Moment<T>>)
    requires Sound(m.inner, max) && !e.stop
    ensures Sound(Iterate(maxWait, max, m, e).inner, max)
    ensures Ran(maxWait, max, m, [e] + rest) == Ran(maxWait, max, Iterate(maxWait, max, m, e), rest)
    ensures Submitted([e] + rest) == e.arrivals + Submitted(rest)
  {
    IterateKeeps(maxWait, max, m, e);
    assert ([e] + rest)[1..] == rest;
    hide Iterate;
  }

  /** Any number of polls is a run of the batcher's loop that is handed the same items. */
  lemma {:induction false} PolledIsRan<T(!new)>(s: Setting<T>, cap: real, n: nat, c: Clocked<T>)
      returns (es: seq<Moment<T>>)
    requires cap > 0.0 && Consistent(s, c)
    ensures |es| == n && Ran(s.maxWait, s.max, Machine([], c.inner), es) == Machine([], Polled(s, cap, n, c).inner)
    ensures c.next <= Polled(s, cap, n, c).next <= |s.arrivals|
    ensures Submitted(es) == Items(s, c.next, Polled(s, cap, n, c).next - c.next)
  {
    hide Iterate, Poll, Timeout, Consistent, Items, Arrives, Sound, Promised;
    ConsistentParts(s, c);
    if n == 0 {
      es := [];
      ItemsFrom(s, c.next, [], 0);
    } else {
      var e := PollIsIteration(s, cap, c);
      PollKeeps(s, cap, c);
      var next := Poll(s, cap, c);
      ConsistentParts(s, next);
      var rest := PolledIsRan(s, cap, n - 1, next);
      es := [e] + rest;
      RanFirst(s.maxWait, s.max, Machine([], c.inner), e, rest);
      ItemsFrom(s, c.next, e.arrivals, Polled(s, cap, n, c).next - next.next);
    }
  }

  function Started<T>(at: real): Clocked<T> {
    Clocked(at, 0, Loop([], None, []), [])
  }

  ghost predicate Finished<T(!new)>(s: Setting<T>, c: Clocked<T>) {
    c.next == |s.arrivals| && c.inner.pending == []
  }

  /** The time the loop is waiting for. */
  ghost function Target<T(!new)>(s: Setting<T>, c: Clocked<T>): real
    requires Consistent(s, c) && !Finished(s, c)
  {
    if c.inner.pending == [] then s.arrivals[c.next].at else c.inner.startedAt.value + s.maxWait
  }

  lemma QuotientIs(x: real, cap: real, q: real)
    requires cap > 0.0 && x == q * cap
    ensures x / cap == q
  {
  }

  lemma FloorOfQuotient(x: real, cap: real)
    requires cap > 0.0 && x >= 0.0
    ensures (x / cap).Floor >= 0
    ensures x >= cap ==> ((x - cap) / cap).Floor == (x / cap).Floor - 1
  {
    assert x / cap >= 0.0;
    var q := x / cap;
    assert q * cap == x;
    assert (q - 1.0) * cap == x - cap;
    QuotientIs(x - cap, cap, q - 1.0);
  }

  /** How many more polls may pass without an event. */
  ghost function Patience<T(!new)>(s: Setting<T>, cap: real, c: Clocked<T>): nat
    requires cap > 0.0 && Consistent(s, c)
  {
    if Finished(s, c) || Target(s, c) < c.now then 0
    else
      FloorOfQuotient(Target(s, c) - c.now, cap);
      ((Target(s, c) - c.now) / cap).Floor
  }

  /** A poll takes an item, or flushes, or brings the awaited time one interval nearer. */
  lemma PollProgresses<T(!new)>(s: Setting<T>, cap: real, c: Clocked<T>)
    requires cap > 0.0 && Consistent(s, c) && !Finished(s, c)
    ensures var r := Poll(s, cap, c);
            && Consistent(s, r)
            && (|| r.next == c.next + 1
                || (r.next == c.next && c.inner.pending != [] && r.inner.pending == [])
                || (r.next == c.next && r.inner == c.inner && Patience(s, cap, r) < Patience(s, cap, c)))
  {
    PollKeeps(s, cap, c);
    if c.inner.pending == [] {
      if Arrives(s, c, cap) {
        FirstItemPoll(s, cap, c);
      } else {
        IdlePoll(s, cap, c);
        FloorOfQuotient(Target(s, c) - c.now, cap);
      }
    } else if Arrives(s, c, Timeout(s.maxWait, c.inner.startedAt, c.now, cap)) {
      if |c.inner.pending| + 1 == s.max {
        FillingPoll(s, cap, c);
      } else {
        JoiningPoll(s, cap, c);
      }
    } else if c.now + cap < c.inner.startedAt.value + s.maxWait {
      WaitingPoll(s, cap, c);
      FloorOfQuotient(Target(s, c) - c.now, cap);
    } else {
      DuePoll(s, cap, c);
    }
    hide Poll, Promised, BatchFrom, From, Items;
  }

  /** The loop gets through all arrivals. */
  lemma {:induction false} Finishes<T(!new)>(s: Setting<T>, cap: real, c: Clocked<T>) returns (n: nat)
    requires cap > 0.0 && Consistent(s, c)
    ensures Finished(s, Polled(s, cap, n, c))
    decreases |s.arrivals| - c.next, if c.inner.pending == [] then 0 else 1, Patience(s, cap, c)
  {
    hide Poll, Promised, Patience, PendingOk;
    if Finished(s, c) {
      n := 0;
    } else {
      PollProgresses(s, cap, c);
      PollKeeps(s, cap, c);
      var m := Finishes(s, cap, Poll(s, cap, c));
      n := m + 1;
    }
  }

  lemma {:induction false} StaysFinished<T(!new)>(s: Setting<T>, cap: real, n: nat, c: Clocked<T>)
    requires cap > 0.0 && Consistent(s, c) && Finished(s, c)
    ensures Finished(s, Polled(s, cap, n, c))
  {
    if n > 0 {
      IdlePoll(s, cap, c);
      PollKeeps(s, cap, c);
      StaysFinished(s, cap, n - 1, Poll(s, cap, c));
    }
  }

  lemma {:induction false} PolledTwice<T(!new)>(s: Setting<T>, cap: real, n: nat, m: nat, c: Clocked<T>)
    requires cap > 0.0 && Consistent(s, c)
    ensures Polled(s, cap, n + m, c) == Polled(s, cap, m, Polled(s, cap, n, c))
  {
    hide Poll, Promised, PendingOk;
    if n > 0 {
      PollKeeps(s, cap, c);
      PolledTwice(s, cap, n - 1, m, Poll(s, cap, c));
    }
  }

  lemma StartedIsConsistent<T(!new)>(s: Setting<T>, at: real)
    requires Regular(s)
    ensures Consistent(s, Started(at)) && Promised(s, Started(at)) == From(s, 0, at)
  {
  }

  lemma FinishedLog<T(!new)>(s: Setting<T>, c: Clocked<T>)
    requires Consistent(s, c) && Finished(s, c)
    ensures Promised(s, c) == c.log
  {
  }

  lemma LaterLog<T(!new)>(s: Setting<T>, cap: real, n: nat, m: nat, c: Clocked<T>)
    requires cap > 0.0 && Consistent(s, c) && n <= m && Finished(s, Polled(s, cap, n, c))
    ensures Polled(s, cap, m, c).log == Promised(s, c)
  {
    hide *;
    PolledTwice(s, cap, n, m - n, c);
    StaysFinished(s, cap, m - n, Polled(s, cap, n, c));
    FinishedLog(s, Polled(s, cap, m, c));
  }

  /** At every moment the loop has flushed a prefix of the reference, whatever the poll interval. */
  lemma FlushesArePrefix<T(!new)>(s: Setting<T>, cap: real, at: real, n: nat)
    requires cap > 0.0 && Regular(s)
    ensures Consistent(s, Started(at)) && Polled(s, cap, n, Started(at)).log <= From(s, 0, at)
  {
    StartedIsConsistent(s, at);
    var r := Polled(s, cap, n, Started(at));
    assert r.log <= Promised(s, r);
  }

  /** In the end it has flushed all of the reference: batches and times do not depend on the poll interval. */
  lemma FlushesAreReference<T(!new)>(s: Setting<T>, cap: real, at: real) returns (n: nat)
    requires cap > 0.0 && Regular(s)
    ensures Consistent(s, Started(at))
    ensures forall m: nat | m >= n :: Polled(s, cap, m, Started(at)).log == From(s, 0, at)
  {
    StartedIsConsistent(s, at);
    n := Finishes(s, cap, Started(at));
    hide *;
    forall m: nat | m >= n
      ensures Polled(s, cap, m, Started(at)).log == From(s, 0, at)
    {
      LaterLog(s, cap, n, m, Started(at));
    }
  }

  // ---- What the reference means ----

  /**
   * One flush of the items from lo on: never after the deadline, at the deadline unless full, and nobody in time left
   * out.
   */
  predicate Timely<T(==)>(s: Setting<T>, lo: nat, free: real, f: Flushed<T>) {
    var n := |f.batch|;
    && 1 <= n <= s.max && lo + n <= |s.arrivals|
    && f.batch == Items(s, lo, n)
    && f.startedAt == Max(free, s.arrivals[lo].at)
    && f.startedAt <= f.at <= f.startedAt + s.maxWait
    && (forall i | lo <= i < lo + n :: s.arrivals[i].at <= f.at)
    && (n == s.max ==> f.at == Max(f.startedAt, s.arrivals[lo + n - 1].at))
    && (n < s.max ==> f.at == f.startedAt + s.maxWait
                      && (lo + n < |s.arrivals| ==> s.arrivals[lo + n].at > f.at))
  }

  /** A complete, timely history of all items from lo on. */
  predicate History<T(==)>(s: Setting<T>, lo: nat, free: real, log: seq<Flushed<T>>)
    decreases |log|
  {
    if log == [] then lo == |s.arrivals|
    else
      && Timely(s, lo, free, log[0])
      && History(s, lo + |log[0].batch|, log[0].at + s.cost(log[0].batch), log[1..])
  }

  /** All of the first n items come in time, and the next one does not or has no room. */
  lemma {:induction false} FillIsExact<T(!new)>(s: Setting<T>, lo: nat, k: nat, deadline: real)
    requires Regular(s) && lo + k <= |s.arrivals| && k <= s.max
    ensures var n := Fill(s, lo, k, deadline);
            && (forall i | lo + k <= i < lo + n :: s.arrivals[i].at <= deadline)
            && (n < s.max && lo + n < |s.arrivals| ==> s.arrivals[lo + n].at > deadline)
    decreases s.max - k
  {
    if k < s.max && lo + k < |s.arrivals| && s.arrivals[lo + k].at <= deadline {
      FillIsExact(s, lo, k + 1, deadline);
    }
  }

  lemma FromFirst<T(!new)>(s: Setting<T>, lo: nat, free: real)
    requires Regular(s) && lo < |s.arrivals|
    ensures var started := Max(free, s.arrivals[lo].at);
            var n := Fill(s, lo, 1, started + s.maxWait);
            var at := LeavesAt(s, lo, n, started);
            From(s, lo, free)
            == [Flushed(Items(s, lo, n), started, at)] + From(s, lo + n, at + s.cost(Items(s, lo, n)))
  {
    hide Fill, LeavesAt, Items, Max;
  }

  lemma LeavesInTime<T(!new)>(s: Setting<T>, lo: nat, started: real)
    requires Regular(s) && lo < |s.arrivals| && s.arrivals[lo].at <= started
    ensures var n := Fill(s, lo, 1, started + s.maxWait);
            var at := LeavesAt(s, lo, n, started);
            && started <= at <= started + s.maxWait
            && (forall i | lo <= i < lo + n :: s.arrivals[i].at <= at)
            && (n == s.max ==> at == Max(started, s.arrivals[lo + n - 1].at))
            && (n < s.max ==> at == started + s.maxWait
                              && (lo + n < |s.arrivals| ==> s.arrivals[lo + n].at > at))
  {
    FillIsExact(s, lo, 1, started + s.maxWait);
    hide Fill;
    var n := Fill(s, lo, 1, started + s.maxWait);
    assert s.arrivals[lo + n - 1].at <= started + s.maxWait;
    forall i | lo <= i < lo + n
      ensures s.arrivals[i].at <= LeavesAt(s, lo, n, started)
    {
      assert i < lo + n - 1 ==> s.arrivals[i].at <= s.arrivals[lo + n - 1].at;
    }
  }

  /** The first flush of the reference is timely, and the rest starts where it ends. */
  lemma FirstIsTimely<T(!new)>(s: Setting<T>, lo: nat, free: real)
    requires Regular(s) && lo < |s.arrivals|
    ensures From(s, lo, free) != [] && Timely(s, lo, free, From(s, lo, free)[0])
    ensures var f := From(s, lo, free)[0];
            From(s, lo, free) == [f] + From(s, lo + |f.batch|, f.at + s.cost(f.batch))
  {
    hide Fill, LeavesAt, Items, From;
    FromFirst(s, lo, free);
    LeavesInTime(s, lo, Max(free, s.arrivals[lo].at));
  }

  lemma NoShorter<T(!new)>(s: Setting<T>, lo: nat, free: real, f: Flushed<T>, g: Flushed<T>)
    requires Regular(s) && Timely(s, lo, free, f) && Timely(s, lo, free, g)
    ensures |f.batch| >= |g.batch|
  {
  }

  /** Two timely flushes from the same position and time are the same. */
  lemma TimelyIsUnique<T(!new)>(s: Setting<T>, lo: nat, free: real, f: Flushed<T>, g: Flushed<T>)
    requires Regular(s) && Timely(s, lo, free, f) && Timely(s, lo, free, g)
    ensures f == g
  {
    NoShorter(s, lo, free, f, g);
    NoShorter(s, lo, free, g, f);
  }

  /** The reference is the one complete, timely history. */
  lemma {:induction false} ReferenceIsTheHistory<T(!new)>(s: Setting<T>, lo: nat, free: real, log: seq<Flushed<T>>)
    requires Regular(s) && lo <= |s.arrivals|
    ensures log == From(s, lo, free) <==> History(s, lo, free, log)
    decreases |s.arrivals| - lo
  {
    if lo < |s.arrivals| {
      FirstIsTimely(s, lo, free);
      var f := From(s, lo, free)[0];
      hide From, Timely;
      if log != [] {
        var rest := From(s, lo + |f.batch|, f.at + s.cost(f.batch));
        assert log == From(s, lo, free) <==> log[0] == f && log[1..] == rest;
        if Timely(s, lo, free, log[0]) {
          TimelyIsUnique(s, lo, free, f, log[0]);
        }
        ReferenceIsTheHistory(s, lo + |f.batch|, f.at + s.cost(f.batch), log[1..]);
      }
    }
  }
}
