// The table of track events: batches go in whole or not at all, and the first row of an event stays.

module Storages {
  import opened Wrappers

  /** The parts of a track update the table keeps, apart from the camera. */
  datatype TrackFields = TrackFields(trackId: string, classId: int, className: string, confidence: real, state: string,
                                     x1: real, y1: real, x2: real, y2: real)

  datatype TrackEvent = TrackEvent(eventId: string, eventTimeMs: int, cameraId: string,
                                   globalIdentityId: Option<string>, fields: TrackFields)

  datatype Row = Row(eventId: string, eventTime: real, cameraId: string, zone: string, globalIdentityId: Option<string>,
                     fields: TrackFields)

  type Table = map<string, Row>

  /** Events carry no zone; the camera stands in for it. */
  function ZoneFor(cameraId: string, e: TrackEvent): string {
    cameraId
  }

  function RowOf(e: TrackEvent): Row {
    Row(e.eventId, e.eventTimeMs as real / 1000.0, e.cameraId, ZoneFor(e.cameraId, e), e.globalIdentityId, e.fields)
  }

  /** Insert, doing nothing on a conflict. */
  function Inserted(t: Table, e: TrackEvent): Table {
    if e.eventId in t then t else t[e.eventId := RowOf(e)]
  }

  /** The table after a batch, row by row. */
  function Written(t: Table, es: seq<TrackEvent>): Table {
    if es == [] then t else Inserted(Written(t, es[..|es| - 1]), es[|es| - 1])
  }

  /** Position k holds the first event with its id. */
  predicate FirstAt(es: seq<TrackEvent>, id: string, k: nat) {
    k < |es| && es[k].eventId == id && forall j | 0 <= j < k :: es[j].eventId != id
  }

  predicate Mentions(es: seq<TrackEvent>, id: string) {
    exists k :: 0 <= k < |es| && es[k].eventId == id
  }

  /** Old rows stay as they are; a new id has the row of the first event that carries it; nothing else is there. */
  lemma {:induction false} FirstWriteWins(t: Table, es: seq<TrackEvent>)
    ensures var w := Written(t, es);
            && (forall id | id in t :: id in w && w[id] == t[id])
            && (forall id :: id in w <==> id in t || Mentions(es, id))
            && (forall id, k: nat | id !in t && FirstAt(es, id, k) :: id in w && w[id] == RowOf(es[k]))
  {
    if es != [] {
      var before, last, n := es[..|es| - 1], es[|es| - 1], |es| - 1;
      FirstWriteWins(t, before);
      forall id
        ensures Mentions(es, id) <==> Mentions(before, id) || id == last.eventId
      {
        if Mentions(before, id) {
          var k :| 0 <= k < |before| && before[k].eventId == id;
          assert es[k].eventId == id;
        }
        if id == last.eventId {
          assert es[n].eventId == id;
        }
      }
      forall id, k: nat | id !in t && FirstAt(es, id, k)
        ensures id in Written(t, es) && Written(t, es)[id] == RowOf(es[k])
      {
        if k < n {
          assert FirstAt(before, id, k);
        } else {
          assert !Mentions(before, id);
        }
      }
    }
  }

  lemma {:induction false} WrittenAppend(t: Table, a: seq<TrackEvent>, b: seq<TrackEvent>)
    ensures Written(t, a + b) == Written(Written(t, a), b)
  {
    if b == [] {
      assert a + b == a;
    } else {
      assert (a + b)[..|a + b| - 1] == a + b[..|b| - 1];
      WrittenAppend(t, a, b[..|b| - 1]);
    }
  }

  /** Events whose ids are all in the table change nothing, whatever else they say. */
  lemma {:induction false} RewritingIsIdle(t: Table, es: seq<TrackEvent>)
    requires forall k | 0 <= k < |es| :: es[k].eventId in t
    ensures Written(t, es) == t
  {
    if es != [] {
      RewritingIsIdle(t, es[..|es| - 1]);
    }
  }

  /** Writing a batch again, or any mix of events written before in any order, changes nothing. */
  lemma RedeliveryIsIdle(t: Table, es: seq<TrackEvent>, again: seq<TrackEvent>)
    requires forall k | 0 <= k < |again| :: Mentions(es, again[k].eventId)
    ensures Written(Written(t, es), again) == Written(t, es)
  {
    FirstWriteWins(t, es);
    RewritingIsIdle(Written(t, es), again);
  }

  /** Overlapping batches leave the table as if every event had come once, in order of first arrival. */
  lemma OverlapIsIdle(t: Table, a: seq<TrackEvent>, b: seq<TrackEvent>, c: seq<TrackEvent>)
    requires forall k | 0 <= k < |b| :: Mentions(a, b[k].eventId)
    ensures Written(Written(t, a), b + c) == Written(t, a + c)
  {
    WrittenAppend(Written(t, a), b, c);
    RedeliveryIsIdle(t, a, b);
    WrittenAppend(t, a, c);
  }

  /** The row spells out the event: time in seconds, the camera for the missing zone, everything else as it is. */
  predicate SpellsOut(r: Row, e: TrackEvent) {
    && r.eventId == e.eventId && r.eventTime * 1000.0 == e.eventTimeMs as real
    && r.cameraId == e.cameraId && r.zone == e.cameraId && r.globalIdentityId == e.globalIdentityId
    && r.fields.trackId == e.fields.trackId && r.fields.classId == e.fields.classId
    && r.fields.className == e.fields.className && r.fields.confidence == e.fields.confidence
    && r.fields.state == e.fields.state
    && r.fields.x1 == e.fields.x1 && r.fields.y1 == e.fields.y1
    && r.fields.x2 == e.fields.x2 && r.fields.y2 == e.fields.y2
  }

  /** Of every event whose id is new to the table, the first in the batch is spelled out under its id. */
  lemma NewRowsSpellOut(t: Table, es: seq<TrackEvent>, id: string, k: nat)
    requires id !in t && FirstAt(es, id, k)
    ensures id in Written(t, es) && SpellsOut(Written(t, es)[id], es[k])
  {
    FirstWriteWins(t, es);
    hide Written;
  }

  // ---- The writer ----

  /** Where a batch may fail: while the rows are sent, at the commit, or nowhere. */
  datatype Failure = Nowhere | InExecute(rows: nat) | InCommit

  predicate WriteSucceeds(es: seq<TrackEvent>, failure: Failure) {
    es == [] || failure == Nowhere || (failure.InExecute? && failure.rows > |es|)
  }

  class Connection {
    /** What other sessions see. */
    var committed: Table
    /** The open transaction's view. */
    var staged: Table

    constructor (table: Table)
      ensures committed == staged == table
    {
      committed, staged := table, table;
    }

    /** Sends rows one by one; a failure leaves some of them in the open transaction. */
    method Execute(events: seq<TrackEvent>, failure: Failure) returns (ok: bool)
      modifies this`staged
      ensures ok == !(failure.InExecute? && failure.rows <= |events|)
      ensures ok ==> staged == Written(old(staged), events)
    {
      for i := 0 to |events|
        invariant staged == Written(old(staged), events[..i])
        invariant failure.InExecute? ==> i <= failure.rows
      {
        if failure == InExecute(i) {
          return false;
        }
        assert events[..i + 1][..i] == events[..i];
        staged := Inserted(staged, events[i]);
      }
      assert events[..|events|] == events;
      ok := failure != InExecute(|events|);
    }

    method Commit(failure: Failure) returns (ok: bool)
      modifies this`committed
      ensures ok == (failure != InCommit) && committed == if ok then staged else old(committed)
    {
      ok := failure != InCommit;
      if ok {
        committed := staged;
      }
    }

    method Rollback()
      modifies this`staged
      ensures staged == committed
    {
      staged := committed;
    }
  }

  class TimeSeriesWriter {
    const connection: Connection

    constructor (connection: Connection)
      ensures this.connection == connection
    {
      this.connection := connection;
    }

    /** All of the batch becomes visible, or nothing changes and the failure is passed on. */
    method WriteBatch(events: seq<TrackEvent>, failure: Failure) returns (ok: bool)
      requires connection.staged == connection.committed
      modifies connection
      ensures connection.staged == connection.committed
      ensures ok <==> WriteSucceeds(events, failure)
      ensures connection.committed
           == if ok then Written(old(connection.committed), events) else old(connection.committed)
    {
      if events == [] {
        return true;
      }
      ok := connection.Execute(events, failure);
      if ok {
        ok := connection.Commit(failure);
      }
      if !ok {
        connection.Rollback();
      }
    }
  }
}
