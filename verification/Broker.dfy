// Streams with consumer groups, and the client that publishes with retries.

module Brokers {
  import opened RealFacts
  import opened Wrappers
  import opened Collections

  const MAX_RETRIES := 5
  const BACKOFF_BASE := 1.0
  const BACKOFF_MULTIPLIER := 2.0
  const BACKOFF_MAX := 60.0

  // ---- A stream and one consumer group, as the server keeps them ----

  /** Message ids are positions in the log. Everything before the cursor has been delivered. */
  datatype Group = Group(cursor: nat, pending: set<nat>, acked: set<nat>)

  const NEW_GROUP := Group(0, {}, {})

  /** The delivered messages are exactly the pending and the acknowledged ones, and none is both. */
  ghost predicate Partitioned(g: Group, length: nat) {
    && g.cursor <= length
    && g.pending !! g.acked
    && forall k: nat :: k < g.cursor <==> k in g.pending || k in g.acked
  }

  /** A read of at most count messages never delivered to the group before. */
  function ReadUpTo(g: Group, length: nat, count: nat): (hi: nat)
    requires g.cursor <= length
    ensures g.cursor <= hi <= length && hi - g.cursor <= count
    ensures hi == g.cursor <==> count == 0 || g.cursor == length
  {
    if length - g.cursor <= count then length else g.cursor + count
  }

  function Delivered(g: Group, hi: nat): Group
    requires g.cursor <= hi
  {
    Group(hi, g.pending + Between(g.cursor, hi), g.acked)
  }

  /** An acknowledgement of a message that is not pending has no effect. */
  function Acked(g: Group, id: nat): Group {
    if id in g.pending then Group(g.cursor, g.pending - {id}, g.acked + {id}) else g
  }

  lemma DeliveryKeepsPartition(g: Group, length: nat, count: nat)
    requires Partitioned(g, length)
    ensures Partitioned(Delivered(g, ReadUpTo(g, length, count)), length)
  {
    var hi := ReadUpTo(g, length, count);
    forall k: nat
      ensures k < hi <==> k in Delivered(g, hi).pending || k in g.acked
    {
      assert k < g.cursor || g.cursor <= k < hi <==> k < hi;
    }
  }

  /** Acknowledging moves one message from pending to acknowledged, at most once, and nothing back. */
  lemma AckKeepsPartition(g: Group, length: nat, id: nat)
    requires Partitioned(g, length)
    ensures Partitioned(Acked(g, id), length)
    ensures id < g.cursor ==> id in Acked(g, id).acked
    ensures g.acked <= Acked(g, id).acked && Acked(Acked(g, id), id) == Acked(g, id)
    ensures Acked(g, id).cursor == g.cursor
    ensures forall k: nat :: k in Acked(g, id).acked <==> k in g.acked || (k == id && id in g.pending)
    ensures forall k: nat :: k in Acked(g, id).pending <==> k in g.pending && k != id
  {
  }

  lemma AppendKeepsPartition(g: Group, length: nat, more: nat)
    requires Partitioned(g, length)
    ensures Partitioned(g, length + more)
  {
  }

  // ---- Publishing with retries ----

  /** What one attempt to append may come to: the connection fails before or after the server appended. */
  datatype Attempt = Refused | LostReply | Stored

  function Backoff(attempt: nat): real {
    var delay := BACKOFF_BASE * Power(BACKOFF_MULTIPLIER, attempt);
    if delay <= BACKOFF_MAX then delay else BACKOFF_MAX
  }

  /** What one attempt appends. */
  function Copy<P>(p: P, attempt: Attempt): seq<P> {
    if attempt == Refused then [] else [p]
  }

  /** What these attempts append. */
  function Copies<P>(p: P, attempts: seq<Attempt>): seq<P> {
    if attempts == [] then []
    else Copies(p, attempts[..|attempts| - 1]) + Copy(p, attempts[|attempts| - 1])
  }

  /** The first attempt that succeeds, or the number of attempts. */
  function Tried(attempts: seq<Attempt>): (n: nat)
    ensures n <= |attempts|
    ensures n < |attempts| ==> attempts[n] == Stored
    ensures forall k | 0 <= k < n :: attempts[k] != Stored
  {
    if attempts == [] then 0
    else
      var n := Tried(attempts[..|attempts| - 1]);
      if n < |attempts| - 1 || attempts[|attempts| - 1] == Stored then n else |attempts|
  }

  /** What a publish appends: the copies of its attempts up to the first success. */
  function Sent<P>(p: P, attempts: seq<Attempt>): seq<P>
    requires |attempts| == MAX_RETRIES
  {
    var n := Tried(attempts);
    Copies(p, attempts[..if n < MAX_RETRIES then n + 1 else n])
  }

  predicate Succeeds(attempts: seq<Attempt>)
    requires |attempts| == MAX_RETRIES
  {
    Tried(attempts) < MAX_RETRIES
  }

  lemma {:induction false} CopiesAreCopies<P>(p: P, attempts: seq<Attempt>)
    ensures |Copies(p, attempts)| <= |attempts|
    ensures forall k | 0 <= k < |Copies(p, attempts)| :: Copies(p, attempts)[k] == p
  {
    if attempts != [] {
      CopiesAreCopies(p, attempts[..|attempts| - 1]);
    }
  }

  /** The first success is the last attempt made. */
  lemma SentUpTo<P>(p: P, attempts: seq<Attempt>, n: nat)
    requires |attempts| == MAX_RETRIES && n < MAX_RETRIES && attempts[n] == Stored
    requires forall k | 0 <= k < n :: attempts[k] != Stored
    ensures Succeeds(attempts) && Tried(attempts) == n && Sent(p, attempts) == Copies(p, attempts[..n + 1])
  {
  }

  lemma SentInVain<P>(p: P, attempts: seq<Attempt>)
    requires |attempts| == MAX_RETRIES && forall k | 0 <= k < MAX_RETRIES :: attempts[k] != Stored
    ensures !Succeeds(attempts) && Tried(attempts) == MAX_RETRIES
    ensures Sent(p, attempts) == Copies(p, attempts[..MAX_RETRIES])
  {
  }

  /** A publish appends between one and five copies of its payload if it succeeds, and at most five if it fails. */
  lemma PublishAppendsCopies<P>(p: P, attempts: seq<Attempt>)
    requires |attempts| == MAX_RETRIES
    ensures |Sent(p, attempts)| <= MAX_RETRIES && forall k | 0 <= k < |Sent(p, attempts)| :: Sent(p, attempts)[k] == p
    ensures Succeeds(attempts) ==> Sent(p, attempts) != []
  {
    var n := Tried(attempts);
    CopiesAreCopies(p, attempts[..if n < MAX_RETRIES then n + 1 else n]);
  }

  /** Of the first n attempts, those that reached the server. */
  function Reached(attempts: seq<Attempt>, n: nat): (ks: set<nat>)
    requires n <= |attempts|
    ensures forall k: nat :: k in ks <==> k < n && attempts[k] != Refused
  {
    set k: nat | k < n && attempts[k] != Refused
  }

  lemma {:induction false} CopiesAreCounted<P>(p: P, attempts: seq<Attempt>, n: nat)
    requires n <= |attempts|
    ensures |Copies(p, attempts[..n])| == |Reached(attempts, n)|
  {
    if n == 0 {
      assert Reached(attempts, 0) == {};
    } else {
      CopiesAreCounted(p, attempts, n - 1);
      assert attempts[..n][..n - 1] == attempts[..n - 1];
      if attempts[n - 1] == Refused {
        assert Reached(attempts, n) == Reached(attempts, n - 1);
      } else {
        assert Reached(attempts, n) == Reached(attempts, n - 1) + {n - 1};
      }
    }
  }

  /** A publish appends one copy for every attempt that reached the server, up to and including the first success. */
  lemma OneCopyPerAttempt<P>(p: P, attempts: seq<Attempt>, last: nat)
    requires |attempts| == MAX_RETRIES && last < MAX_RETRIES
    requires forall k | 0 <= k < last :: attempts[k] != Stored
    requires attempts[last] == Stored || last == MAX_RETRIES - 1
    ensures |Sent(p, attempts)| == |Reached(attempts, last + 1)| && (Succeeds(attempts) <==> attempts[last] == Stored)
  {
    CopiesAreCounted(p, attempts, last + 1);
    hide Copies;
  }

  /** Delays start at one second, never fall and never exceed a minute. */
  lemma BackoffIsCapped(n: nat)
    ensures Backoff(0) == BACKOFF_BASE <= Backoff(n) <= Backoff(n + 1) <= BACKOFF_MAX
  {
    PowerGrows(BACKOFF_MULTIPLIER, n);
  }

  /** Each delay is twice the one before, until the cap is reached. */
  lemma BackoffDoubles(n: nat)
    ensures Backoff(n + 1) == if 2.0 * Backoff(n) <= 60.0 then 2.0 * Backoff(n) else 60.0
    ensures Backoff(0) == 1.0
  {
    PowerGrows(BACKOFF_MULTIPLIER, n);
  }

  function Delays(n: nat): (ds: seq<real>)
    ensures |ds| == n && forall k | 0 <= k < n :: ds[k] == Backoff(k)
  {
    seq(n, k requires 0 <= k < n => Backoff(k))
  }

  // ---- The client ----

  datatype Stream<P> = Stream(log: seq<P>, groups: map<string, Group>)

  datatype Message<P> = Message(id: nat, payload: P)

  function StreamOf<P>(server: map<string, Stream<P>>, name: string): Stream<P> {
    if name in server then server[name] else Stream([], map[])
  }

  function GroupOf<P>(st: Stream<P>, group: string): Group {
    if group in st.groups then st.groups[group] else NEW_GROUP
  }

  /** The stream after its group was created if it was missing. */
  function WithGroup<P>(st: Stream<P>, group: string): Stream<P> {
    if group in st.groups then st else st.(groups := st.groups[group := NEW_GROUP])
  }

  /** A new group starts before the first message; the log and every other group stay as they are. */
  lemma NewGroupStartsAtZero<P>(st: Stream<P>, group: string)
    ensures var after := WithGroup(st, group);
            && after.log == st.log && group in after.groups
            && (forall g | g in st.groups :: g in after.groups && after.groups[g] == st.groups[g])
            && (forall g | g in after.groups :: g in st.groups || g == group)
            && (group !in st.groups ==>
                  var g := after.groups[group];
                  g.cursor == 0 && g.pending == {} && g.acked == {})
  {
  }

  /** A read takes as many messages as it may: count of them, or all there are. */
  lemma ReadsAllItMay(g: Group, length: nat, count: nat)
    requires g.cursor <= length
    ensures var hi := ReadUpTo(g, length, count); hi == length || hi == g.cursor + count
    ensures var d := Delivered(g, ReadUpTo(g, length, count));
            && d.cursor == ReadUpTo(g, length, count) && d.acked == g.acked
            && forall k: nat :: k in d.pending <==> k in g.pending || g.cursor <= k < d.cursor
  {
  }

  ghost predicate AllPartitioned<P>(server: map<string, Stream<P>>) {
    forall s, g | s in server && g in server[s].groups :: Partitioned(server[s].groups[g], |server[s].log|)
  }

  /** The server after these payloads were appended to a stream. */
  function With<P>(server: map<string, Stream<P>>, name: string, ps: seq<P>): map<string, Stream<P>> {
    if ps == [] then server
    else
      var st := StreamOf(server, name);
      server[name := st.(log := st.log + ps)]
  }

  /** Appending payloads touches no group and no other stream; the stream's messages stay, with the payloads behind. */
  lemma AppendingTouchesNoGroup<P>(server: map<string, Stream<P>>, name: string, ps: seq<P>, other: string)
    ensures var after := With(server, name, ps);
            && (other in after <==> other in server || (other == name && ps != []))
            && (other in server ==> other in after && after[other].groups == server[other].groups)
            && (other in server && other != name ==> after[other] == server[other])
            && (name in after ==> after[name].log == (if name in server then server[name].log else []) + ps)
            && (name in after && name !in server ==> after[name].groups == map[])
  {
  }

  lemma WithNothing<P>(server: map<string, Stream<P>>, name: string, p: P, attempts: seq<Attempt>)
    ensures With(server, name, Copies(p, attempts[..0])) == server
  {
  }

  /** One more attempt appends its copy to what the others appended. */
  lemma WithCopies<P>(server: map<string, Stream<P>>, name: string, p: P, attempts: seq<Attempt>, n: nat)
    requires n < |attempts|
    ensures With(With(server, name, Copies(p, attempts[..n])), name, Copy(p, attempts[n]))
            == With(server, name, Copies(p, attempts[..n + 1]))
  {
    assert attempts[..n + 1][..n] == attempts[..n];
    var st, ps, one := StreamOf(server, name), Copies(p, attempts[..n]), Copy(p, attempts[n]);
    assert Copies(p, attempts[..n + 1]) == ps + one;
    if ps == [] {
      assert ps + one == one;
    } else if one == [] {
      assert ps + one == ps;
    } else {
      assert st.log + ps + one == st.log + (ps + one);
    }
  }

  function Messages<P>(log: seq<P>, lo: nat, hi: nat): (ms: seq<Message<P>>)
    requires lo <= hi <= |log|
    ensures |ms| == hi - lo && forall i | 0 <= i < |ms| :: ms[i] == Message(lo + i, log[lo + i])
  {
    seq(hi - lo, i requires 0 <= i < hi - lo => Message(lo + i, log[lo + i]))
  }

  class RedisStreamsBroker<P> {
    /** The server's state. */
    var server: map<string, Stream<P>>
    var knownGroups: set<(string, string)>

    constructor (server: map<string, Stream<P>>)
      requires AllPartitioned(server)
      ensures Valid() && this.server == server
    {
      this.server := server;
      knownGroups := {};
    }

    /** Every group the client remembers exists, and every group's messages are partitioned. */
    ghost predicate Valid()
      reads this
    {
      && AllPartitioned(server)
      && forall s, g | (s, g) in knownGroups :: s in server && g in server[s].groups
    }

    /** What the server does with an append. */
    method Append(stream: string, payload: P)
      requires Valid()
      modifies this`server
      ensures Valid()
      ensures server == With(old(server), stream, [payload])
      ensures stream in server && server[stream].log != [] && server[stream].log[|server[stream].log| - 1] == payload
    {
      var st := StreamOf(server, stream);
      server := server[stream := st.(log := st.log + [payload])];
    }

    /** One attempt. */
    method TryAppend(stream: string, payload: P, attempt: Attempt) returns (ok: bool)
      requires Valid()
      modifies this`server
      ensures Valid() && ok == (attempt == Stored)
      ensures server == With(old(server), stream, Copy(payload, attempt))
      ensures ok ==>
                && stream in server && server[stream].log != []
                && server[stream].log[|server[stream].log| - 1] == payload
    {
      if attempt != Refused {
        Append(stream, payload);
      }
      ok := attempt == Stored;
    }

    /** Tries up to five times, sleeping after every failure; fails only if every attempt did. */
    method Publish(stream: string, payload: P, attempts: seq<Attempt>) returns (id: Option<nat>, slept: seq<real>)
      requires Valid() && |attempts| == MAX_RETRIES
      modifies this`server
      ensures Valid()
      ensures server == With(old(server), stream, Sent(payload, attempts))
      ensures id.None? <==> !Succeeds(attempts)
      ensures id.Some? ==>
                && stream in server && id.value + 1 == |server[stream].log|
                && server[stream].log[id.value] == payload
      ensures slept == Delays(Tried(attempts))
    {
      hide AllPartitioned, Copies, Copy, With, Tried, Sent, Succeeds, Backoff;
      WithNothing(server, stream, payload, attempts);
      slept := [];
      for attempt := 0 to MAX_RETRIES
        invariant Valid()
        invariant server == With(old(server), stream, Copies(payload, attempts[..attempt]))
        invariant slept == Delays(attempt)
        invariant forall k | 0 <= k < attempt :: attempts[k] != Stored
      {
        WithCopies(old(server), stream, payload, attempts, attempt);
        var ok := TryAppend(stream, payload, attempts[attempt]);
        if ok {
          SentUpTo(payload, attempts, attempt);
          return Some(|server[stream].log| - 1), slept;
        }
        slept := slept + [Backoff(attempt)];
      }
      SentInVain(payload, attempts);
      id := None;
    }

    /**
     * Creates the group at the start of the stream unless the client or the server already has it. The server may
     * refuse for another reason, which is raised; a group the client remembers is not asked for again.
     */
    method EnsureGroup(stream: string, group: string, refused: bool) returns (ok: bool)
      requires Valid()
      modifies this
      ensures Valid()
      ensures ok <==> !refused || (stream, group) in old(knownGroups)
      ensures ok ==> knownGroups == old(knownGroups) + {(stream, group)}
                     && server == if stream in old(server) && group in old(server)[stream].groups then old(server)
                                  else old(server)[stream := WithGroup(StreamOf(old(server), stream), group)]
      ensures !ok ==> knownGroups == old(knownGroups) && server == old(server)
      ensures ok ==> stream in server && group in server[stream].groups
      ensures ok && !(stream in old(server) && group in old(server)[stream].groups) ==>
                && server[stream].groups[group] == Group(0, {}, {})
                && server[stream].log == (if stream in old(server) then old(server)[stream].log else [])
                && (forall g | g != group ::
                      g in server[stream].groups <==> stream in old(server) && g in old(server)[stream].groups)
                && (forall g | g != group && g in server[stream].groups ::
                      server[stream].groups[g] == old(server)[stream].groups[g])
                && (forall s | s != stream :: s in server <==> s in old(server))
                && (forall s | s != stream && s in server :: server[s] == old(server)[s])
    {
      if (stream, group) in knownGroups {
        return true;
      }
      if refused {
        return false;
      }
      if !(stream in server && group in server[stream].groups) {
        server := server[stream := WithGroup(StreamOf(server, stream), group)];
      }
      knownGroups := knownGroups + {(stream, group)};
      ok := true;
    }

    /** Delivers in order messages no consumer of the group has seen and makes them pending; fails with EnsureGroup. */
    method Consume(stream: string, group: string, count: nat, refused: bool)
      returns (ok: bool, messages: seq<Message<P>>)
      requires Valid()
      modifies this
      ensures Valid()
      ensures ok <==> !refused || (stream, group) in old(knownGroups)
      ensures !ok ==> messages == [] && server == old(server) && knownGroups == old(knownGroups)
      ensures ok ==> knownGroups == old(knownGroups) + {(stream, group)}
      ensures ok ==>
              var st := WithGroup(StreamOf(old(server), stream), group);
              var g := GroupOf(st, group);
              g.cursor <= |st.log| &&
              var hi := ReadUpTo(g, |st.log|, count);
              && messages == Messages(st.log, g.cursor, hi)
              && server == old(server)[stream := st.(groups := st.groups[group := Delivered(g, hi)])]
      ensures ok && stream in old(server) && group !in old(server)[stream].groups ==>
                var log := old(server)[stream].log;
                && |messages| == (if count <= |log| then count else |log|)
                && (forall i | 0 <= i < |messages| :: messages[i].id == i && messages[i].payload == log[i])
                && stream in server && group in server[stream].groups && server[stream].log == log
                && server[stream].groups[group].cursor == |messages| && server[stream].groups[group].acked == {}
                && forall k: nat :: k in server[stream].groups[group].pending <==> k < |messages|
    {
      ok := EnsureGroup(stream, group, refused);
      if !ok {
        return false, [];
      }
      var st := server[stream];
      var g := st.groups[group];
      var hi := ReadUpTo(g, |st.log|, count);
      DeliveryKeepsPartition(g, |st.log|, count);
      messages := Messages(st.log, g.cursor, hi);
      server := server[stream := st.(groups := st.groups[group := Delivered(g, hi)])];
    }

    method Ack(stream: string, group: string, id: nat)
      requires Valid()
      modifies this`server
      ensures Valid()
      ensures server == if stream in old(server) && group in old(server)[stream].groups then
                          var st := old(server)[stream];
                          old(server)[stream := st.(groups := st.groups[group := Acked(st.groups[group], id)])]
                        else old(server)
    {
      if stream in server && group in server[stream].groups {
        var st := server[stream];
        AckKeepsPartition(st.groups[group], |st.log|, id);
        server := server[stream := st.(groups := st.groups[group := Acked(st.groups[group], id)])];
      }
    }
  }
}
