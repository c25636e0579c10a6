// Which sightings of an identity its bounded gallery still holds, whatever the clock does between them.

module GalleryPlaces {
  import opened Collections
  import opened Galleries

  /** The zone and the clock reading of a call. */
  datatype Tick = Tick(zone: string, at: real)

  // ---- Ascending lists of positions ----

  lemma {:induction false} AscendingCount(a: seq<nat>, b: seq<nat>)
    requires Ascending(a) && Ascending(b) && forall p | p in a :: p in b
    ensures |a| <= |b|
  {
    if a != [] {
      var last := a[|a| - 1];
      assert last in a;
      var y :| 0 <= y < |b| && b[y] == last;
      forall p | p in a[..|a| - 1]
        ensures p in b[..y]
      {
        assert p in a && p < last;
        var z :| 0 <= z < |b| && b[z] == p;
        assert z < y;
        assert b[..y][z] == p;
      }
      AscendingCount(a[..|a| - 1], b[..y]);
    }
  }

  lemma {:induction false} AscendingSame(a: seq<nat>, b: seq<nat>)
    requires Ascending(a) && Ascending(b) && forall p :: p in a <==> p in b
    ensures a == b
  {
    AscendingCount(a, b);
    AscendingCount(b, a);
    if a != [] {
      var n := |a| - 1;
      assert a[n] in a && b[n] in b;
      var y :| 0 <= y < |b| && b[y] == a[n];
      var z :| 0 <= z < |a| && a[z] == b[n];
      assert a[n] == b[n];
      forall p
        ensures p in a[..n] <==> p in b[..n]
      {
        assert p in a[..n] <==> p in a && p != a[n];
        assert p in b[..n] <==> p in b && p != b[n];
      }
      AscendingSame(a[..n], b[..n]);
      assert a == a[..n] + [a[n]] && b == b[..n] + [b[n]];
    }
  }

  /** Five newer positions push one out of the newest five. */
  lemma PushedOut(ps: seq<nat>, i: nat, newer: seq<nat>)
    requires Ascending(ps) && Ascending(newer) && |newer| == MAX_ENTRIES && i in ps
    requires forall p | p in newer :: p in ps && p > i
    ensures i !in Newest(ps)
  {
    var x :| 0 <= x < |ps| && ps[x] == i;
    forall p | p in newer
      ensures p in ps[x + 1..]
    {
      var y :| 0 <= y < |ps| && ps[y] == p;
      assert y > x && ps[x + 1..][y - x - 1] == p;
    }
    AscendingCount(newer, ps[x + 1..]);
    assert |ps| - MAX_ENTRIES > x;
  }

  /** A position all of whose successors fit with it in a list of five stays among the newest. */
  lemma StaysIn(ps: seq<nat>, i: nat, kept: seq<nat>)
    requires Ascending(ps) && Ascending(kept) && |kept| <= MAX_ENTRIES && i in ps
    requires forall p | p in ps && p >= i :: p in kept
    ensures i in Newest(ps)
  {
    var x :| 0 <= x < |ps| && ps[x] == i;
    var tail := ps[x..];
    forall p | p in tail
      ensures p in kept
    {
      var y :| 0 <= y < |tail| && tail[y] == p;
      assert ps[x + y] == p;
    }
    AscendingCount(tail, kept);
    if |ps| > MAX_ENTRIES {
      assert ps[|ps| - MAX_ENTRIES..][x - (|ps| - MAX_ENTRIES)] == i;
    }
  }

  // ---- What the gallery keeps of one identity ----

  predicate Young(ts: seq<Tick>, p: nat, now: real)
    requires p < |ts|
  {
    now - ts[p].at <= 300.0
  }

  /** The positions no older than the maximal age, in order. */
  function LivePlaces(ts: seq<Tick>, ps: seq<nat>, now: real): (ls: seq<nat>)
    requires Within(ps, |ts|)
    ensures forall p :: p in ls <==> p in ps && Young(ts, p, now)
    ensures |ls| <= |ps|
  {
    if ps == [] then []
    else
      var last := ps[|ps| - 1];
      assert ps == ps[..|ps| - 1] + [last] && last in ps;
      LivePlaces(ts, ps[..|ps| - 1], now) + (if Young(ts, last, now) then [last] else [])
  }

  lemma {:induction false} LivePlacesWithin(ts: seq<Tick>, ps: seq<nat>, now: real, n: nat)
    requires Within(ps, |ts|) && Within(ps, n)
    ensures Within(LivePlaces(ts, ps, now), n)
  {
    if ps != [] {
      LivePlacesWithin(ts, ps[..|ps| - 1], now, n);
    }
  }

  lemma {:induction false} LivePlacesRise(ts: seq<Tick>, ps: seq<nat>, now: real)
    requires Within(ps, |ts|) && Ascending(ps)
    ensures Ascending(LivePlaces(ts, ps, now))
  {
    if ps != [] {
      LivePlacesRise(ts, ps[..|ps| - 1], now);
      var before := LivePlaces(ts, ps[..|ps| - 1], now);
      forall i | 0 <= i < |before|
        ensures before[i] < ps[|ps| - 1]
      {
        assert before[i] in before;
      }
    }
  }

  /** Of the positions of one identity, those its gallery holds after the first k calls. */
  function Kept(ts: seq<Tick>, zone: string, at: seq<nat>, k: nat): (ps: seq<nat>)
    requires k <= |ts|
    ensures Within(ps, k) && |ps| <= MAX_ENTRIES
    ensures forall p | p in ps :: p in at
  {
    if k == 0 then []
    else
      var before := Kept(ts, zone, at, k - 1);
      if ts[k - 1].zone != zone then before
      else
        var live := LivePlaces(ts, before, ts[k - 1].at);
        LivePlacesWithin(ts, before, ts[k - 1].at, k - 1);
        if k - 1 in at then Newest(live + [k - 1]) else live
  }

  lemma {:induction false} KeptRise(ts: seq<Tick>, zone: string, at: seq<nat>, k: nat)
    requires k <= |ts|
    ensures Ascending(Kept(ts, zone, at, k))
  {
    if k > 0 {
      KeptRise(ts, zone, at, k - 1);
      var before := Kept(ts, zone, at, k - 1);
      LivePlacesRise(ts, before, ts[k - 1].at);
      var live := LivePlaces(ts, before, ts[k - 1].at);
      forall i | 0 <= i < |live|
        ensures live[i] < k - 1
      {
        assert live[i] in live;
      }
    }
  }

  /** What is kept after k calls does not depend on later positions. */
  lemma {:induction false} KeptIgnoresLater(ts: seq<Tick>, zone: string, at: seq<nat>, later: nat, k: nat)
    requires k <= |ts| && later >= k
    ensures Kept(ts, zone, at + [later], k) == Kept(ts, zone, at, k)
  {
    if k > 0 {
      KeptIgnoresLater(ts, zone, at, later, k - 1);
      assert k - 1 in at + [later] <==> k - 1 in at;
    }
  }

  /** A call of the zone after p and before k found p too old. */
  predicate Aged(ts: seq<Tick>, zone: string, p: nat, k: nat)
    requires p < k <= |ts|
  {
    exists j :: p < j < k && ts[j].zone == zone && !Young(ts, p, ts[j].at)
  }

  /** Five positions after i and up to m that were young at every call of the zone up to m. */
  predicate Covers(ts: seq<Tick>, zone: string, i: nat, m: nat, newer: seq<nat>)
    requires m < |ts|
  {
    && |newer| == 5 && Ascending(newer)
    && forall p | p in newer :: i < p <= m && ts[p].zone == zone && !Aged(ts, zone, p, m + 1)
  }

  /** Such five positions of the identity, with nothing as old as i kept. */
  ghost predicate Covered(ts: seq<Tick>, zone: string, at: seq<nat>, i: nat, k: nat)
    requires k <= |ts|
  {
    && (exists m: nat, newer: seq<nat> :: m < k && Covers(ts, zone, i, m, newer) && forall p | p in newer :: p in at)
    && forall p | p in Kept(ts, zone, at, k) :: p > i
  }

  /** What is kept never was too old; what is not was too old once, or five newer ones took its place. */
  ghost predicate Explained(ts: seq<Tick>, zone: string, at: seq<nat>, k: nat)
    requires k <= |ts|
  {
    && (forall p | p in Kept(ts, zone, at, k) :: !Aged(ts, zone, p, k))
    && (forall i | i in at && i < k && i !in Kept(ts, zone, at, k) ::
          Aged(ts, zone, i, k) || Covered(ts, zone, at, i, k))
  }

  predicate InZone(ts: seq<Tick>, zone: string, at: seq<nat>) {
    forall p | p in at :: p < |ts| && ts[p].zone == zone
  }

  lemma AgedLater(ts: seq<Tick>, zone: string, p: nat, k: nat)
    requires p < k < |ts|
    ensures Aged(ts, zone, p, k + 1) <==> Aged(ts, zone, p, k) || (ts[k].zone == zone && !Young(ts, p, ts[k].at))
  {
    if Aged(ts, zone, p, k) {
      var j :| p < j < k && ts[j].zone == zone && !Young(ts, p, ts[j].at);
      assert p < j < k + 1;
    }
  }

  lemma NotAgedAtOnce(ts: seq<Tick>, zone: string, p: nat)
    requires p < |ts|
    ensures !Aged(ts, zone, p, p + 1)
  {
  }

  /** One call of the zone. */
  lemma KeptStep(ts: seq<Tick>, zone: string, at: seq<nat>, k: nat)
    requires k < |ts|
    ensures ts[k].zone != zone ==> Kept(ts, zone, at, k + 1) == Kept(ts, zone, at, k)
    ensures ts[k].zone == zone ==>
              var live := LivePlaces(ts, Kept(ts, zone, at, k), ts[k].at);
              Kept(ts, zone, at, k + 1) == if k in at then Newest(live + [k]) else live
  {
  }

  /** An older call leaves what is kept explained, if it is another zone's. */
  lemma OtherZoneExplains(ts: seq<Tick>, zone: string, at: seq<nat>, k: nat)
    requires k < |ts| && ts[k].zone != zone && InZone(ts, zone, at) && Explained(ts, zone, at, k)
    ensures Explained(ts, zone, at, k + 1)
  {
    KeptStep(ts, zone, at, k);
    hide Kept;
    forall p: nat | p < k
      ensures Aged(ts, zone, p, k + 1) <==> Aged(ts, zone, p, k)
    {
      AgedLater(ts, zone, p, k);
    }
    hide Aged, Covers;
    forall i | i in at && i < k + 1 && i !in Kept(ts, zone, at, k + 1)
      ensures Aged(ts, zone, i, k + 1) || Covered(ts, zone, at, i, k + 1)
    {
      assert i < k;
    }
  }

  lemma NewestMembers(live: seq<nat>, k: nat)
    requires Ascending(live + [k]) && |live| <= MAX_ENTRIES
    ensures k in Newest(live + [k])
    ensures |live| < MAX_ENTRIES ==> forall p :: p in Newest(live + [k]) <==> p in live || p == k
    ensures |live| == MAX_ENTRIES ==>
              && Newest(live + [k]) == live[1..] + [k]
              && forall p :: p in Newest(live + [k]) <==> (p in live && p != live[0]) || p == k
  {
    var all := live + [k];
    assert all[|live|] == k;
    if |live| == MAX_ENTRIES {
      assert all[1..] == live[1..] + [k];
      var rest := live[1..];
      assert forall p :: p in live <==> p == live[0] || p in rest;
      forall p | p in rest
        ensures p != live[0]
      {
        var y :| 0 <= y < |rest| && rest[y] == p;
        assert all[y + 1] == p && all[0] == live[0];
      }
      assert forall p :: p in rest + [k] <==> p in rest || p == k;
    } else {
      assert Newest(all) == all;
    }
  }

  /** The entry that five newer ones push out at call k. */
  lemma PushedOutIsCovered(ts: seq<Tick>, zone: string, at: seq<nat>, k: nat, live: seq<nat>)
    requires k < |ts| && ts[k].zone == zone && InZone(ts, zone, at) && k in at
    requires live == LivePlaces(ts, Kept(ts, zone, at, k), ts[k].at) && |live| == MAX_ENTRIES
    requires Explained(ts, zone, at, k) && Kept(ts, zone, at, k + 1) == live[1..] + [k]
    ensures Covered(ts, zone, at, live[0], k + 1)
  {
    hide Kept, Newest, Young;
    KeptRise(ts, zone, at, k + 1);
    KeptRise(ts, zone, at, k);
    LivePlacesRise(ts, Kept(ts, zone, at, k), ts[k].at);
    var newer := live[1..] + [k];
    forall p | p in newer
      ensures live[0] < p <= k && ts[p].zone == zone && !Aged(ts, zone, p, k + 1) && p in at
    {
      if p == k {
        NotAgedAtOnce(ts, zone, k);
        assert live[0] in live;
      } else {
        assert p in live;
        AgedLater(ts, zone, p, k);
      }
    }
    assert Covers(ts, zone, live[0], k, newer);
  }

  /** The members of the next kept list come from the last one's young members and the call itself. */
  lemma KeptNext(ts: seq<Tick>, zone: string, at: seq<nat>, k: nat)
    requires k < |ts| && ts[k].zone == zone
    ensures var live, next := LivePlaces(ts, Kept(ts, zone, at, k), ts[k].at), Kept(ts, zone, at, k + 1);
            && Ascending(live) && |live| <= MAX_ENTRIES
            && (forall p | p in next :: p in live || p == k)
            && (k in at ==> k in next)
            && (k in at && |live| == MAX_ENTRIES ==> next == live[1..] + [k])
            && (forall p | p in live && p !in next :: k in at && |live| == MAX_ENTRIES && p == live[0])
  {
    var before := Kept(ts, zone, at, k);
    var live := LivePlaces(ts, before, ts[k].at);
    KeptStep(ts, zone, at, k);
    KeptRise(ts, zone, at, k);
    LivePlacesRise(ts, before, ts[k].at);
    LivePlacesWithin(ts, before, ts[k].at, k);
    hide Kept, Newest, LivePlaces;
    if k in at {
      NewestMembers(live, k);
    }
  }

  lemma KeptStaysYoung(ts: seq<Tick>, zone: string, at: seq<nat>, k: nat, p: nat)
    requires k < |ts| && ts[k].zone == zone && Explained(ts, zone, at, k) && p in Kept(ts, zone, at, k + 1)
    ensures !Aged(ts, zone, p, k + 1)
  {
    hide Kept, Covered;
    KeptNext(ts, zone, at, k);
    if p == k {
      NotAgedAtOnce(ts, zone, k);
    } else {
      assert p in Kept(ts, zone, at, k);
      AgedLater(ts, zone, p, k);
    }
  }

  lemma CoveredLater(ts: seq<Tick>, zone: string, at: seq<nat>, i: nat, k: nat)
    requires k < |ts| && ts[k].zone == zone && i < k && Covered(ts, zone, at, i, k)
    ensures Covered(ts, zone, at, i, k + 1)
  {
    hide Kept, Covers;
    KeptNext(ts, zone, at, k);
    var m: nat, newer: seq<nat> :| m < k && Covers(ts, zone, i, m, newer) && forall p | p in newer :: p in at;
    assert m < k + 1;
  }

  lemma LostIsExplained(ts: seq<Tick>, zone: string, at: seq<nat>, k: nat, i: nat)
    requires k < |ts| && ts[k].zone == zone && InZone(ts, zone, at) && Explained(ts, zone, at, k)
    requires i in at && i < k + 1 && i !in Kept(ts, zone, at, k + 1)
    ensures Aged(ts, zone, i, k + 1) || Covered(ts, zone, at, i, k + 1)
  {
    hide Kept, Covered, Newest;
    KeptNext(ts, zone, at, k);
    var live := LivePlaces(ts, Kept(ts, zone, at, k), ts[k].at);
    AgedLater(ts, zone, i, k);
    if i in live {
      PushedOutIsCovered(ts, zone, at, k, live);
    } else if i !in Kept(ts, zone, at, k) && !Aged(ts, zone, i, k) {
      CoveredLater(ts, zone, at, i, k);
    }
  }

  /** After any calls, every position of an identity is explained. */
  lemma {:induction false} AllExplained(ts: seq<Tick>, zone: string, at: seq<nat>, k: nat)
    requires k <= |ts| && InZone(ts, zone, at)
    ensures Explained(ts, zone, at, k)
  {
    hide Kept, Aged, Covered;
    if k > 0 {
      AllExplained(ts, zone, at, k - 1);
      if ts[k - 1].zone == zone {
        forall p | p in Kept(ts, zone, at, k)
          ensures !Aged(ts, zone, p, k)
        {
          KeptStaysYoung(ts, zone, at, k - 1, p);
        }
        forall i | i in at && i < k && i !in Kept(ts, zone, at, k)
          ensures Aged(ts, zone, i, k) || Covered(ts, zone, at, i, k)
        {
          LostIsExplained(ts, zone, at, k - 1, i);
        }
      } else {
        OtherZoneExplains(ts, zone, at, k - 1);
      }
    }
  }

  // ---- When what is kept is what the log would keep ----

  /** Call n takes for young a position that an earlier call of its zone found too old. */
  predicate Revives(ts: seq<Tick>, n: nat)
    requires n < |ts|
  {
    exists i: nat :: i < n && ts[i].zone == ts[n].zone && Young(ts, i, ts[n].at) && Aged(ts, ts[n].zone, i, n)
  }

  /** Five positions covered a sixth at some call, and call n finds the sixth young but one of the five too old. */
  predicate UncoversBy(ts: seq<Tick>, n: nat, i: nat, m: nat, newer: seq<nat>)
    requires n < |ts|
  {
    && i < n && ts[i].zone == ts[n].zone && Young(ts, i, ts[n].at)
    && m < n && Covers(ts, ts[n].zone, i, m, newer)
    && exists p :: p in newer && p < |ts| && !Young(ts, p, ts[n].at)
  }

  ghost predicate Uncovers(ts: seq<Tick>, n: nat)
    requires n < |ts|
  {
    exists i: nat, m: nat, newer: seq<nat> :: UncoversBy(ts, n, i, m, newer)
  }

  /** A young position that is not kept has five newer young ones. */
  lemma NotKeptIsPushedOut(ts: seq<Tick>, at: seq<nat>, n: nat, i: nat)
    requires n < |ts| && !Revives(ts, n) && !Uncovers(ts, n)
    requires Ascending(at) && InZone(ts, ts[n].zone, at) && Within(at, n)
    requires i in at && i < n && Young(ts, i, ts[n].at) && i !in Kept(ts, ts[n].zone, at, n)
    ensures i !in Newest(LivePlaces(ts, at, ts[n].at))
    ensures forall p | p in Kept(ts, ts[n].zone, at, n) :: p > i
  {
    hide Kept, Newest, LivePlaces, Young, Aged;
    var zone, now := ts[n].zone, ts[n].at;
    AllExplained(ts, zone, at, n);
    assert !Aged(ts, zone, i, n);
    assert Covered(ts, zone, at, i, n);
    var m: nat, newer: seq<nat> :| m < n && Covers(ts, zone, i, m, newer) && forall p | p in newer :: p in at;
    assert !UncoversBy(ts, n, i, m, newer);
    LivePlacesRise(ts, at, now);
    forall p | p in newer
      ensures p in LivePlaces(ts, at, now) && p > i
    {
      assert Young(ts, p, now);
    }
    PushedOut(LivePlaces(ts, at, now), i, newer);
  }

  lemma NewestOfRising(ps: seq<nat>)
    requires Ascending(ps)
    ensures Ascending(Newest(ps)) && forall p | p in Newest(ps) :: p in ps
  {
  }

  /** Without revival or uncovering, what the gallery still finds young is the newest five young ones of the log. */
  lemma KeptIsNewest(ts: seq<Tick>, at: seq<nat>, n: nat)
    requires n < |ts| && !Revives(ts, n) && !Uncovers(ts, n)
    requires Ascending(at) && InZone(ts, ts[n].zone, at) && Within(at, n)
    ensures LivePlaces(ts, Kept(ts, ts[n].zone, at, n), ts[n].at) == Newest(LivePlaces(ts, at, ts[n].at))
  {
    hide Kept, Newest, LivePlaces, Young, Revives, Uncovers;
    var zone, now := ts[n].zone, ts[n].at;
    var kept, live := Kept(ts, zone, at, n), LivePlaces(ts, at, now);
    KeptRise(ts, zone, at, n);
    LivePlacesRise(ts, kept, now);
    LivePlacesRise(ts, at, now);
    NewestOfRising(live);
    forall i
      ensures i in LivePlaces(ts, kept, now) <==> i in Newest(live)
    {
      if i in live {
        if i in kept {
          forall p | p in live && p >= i
            ensures p in kept
          {
            if p !in kept {
              NotKeptIsPushedOut(ts, at, n, p);
            }
          }
          StaysIn(live, i, kept);
        } else {
          NotKeptIsPushedOut(ts, at, n, i);
        }
      }
    }
    AscendingSame(LivePlaces(ts, kept, now), Newest(live));
  }
}
