// The incremental lifecycle of a track against a predicate on its whole match history.

module Lifecycle {
  import opened Wrappers
  import opened Tracks

  /** One entry per frame since the track was created; the first is the creating detection. */
  type History = seq<bool>

  predicate Started(h: History) {
    h != [] && h[0]
  }

  function NextLife(l: Life, hit: bool): Life {
    if hit then HitLife(Aged(l)) else MissLife(Aged(l))
  }

  /** What the code does to the counters in one frame: predict, match or miss, clean up. */
  function FrameLife(l: Life, hit: bool): Option<Life> {
    if Dropped(NextLife(l, hit)) then None else Some(NextLife(l, hit))
  }

  /** The counters after a history, or None once the track has been dropped. */
  function LifeAfter(h: History): Option<Life> {
    if |h| <= 1 then Some(NEWBORN)
    else
      match LifeAfter(h[..|h| - 1])
      case None => None
      case Some(l) => FrameLife(l, h[|h| - 1])
  }

  function Hits(h: History): (n: nat)
    ensures n <= |h|
  {
    if h == [] then 0 else Hits(h[..|h| - 1]) + (if h[|h| - 1] then 1 else 0)
  }

  /** The number of misses at the end. */
  function TrailingMisses(h: History): (n: nat)
    ensures n <= |h|
    ensures forall i | |h| - n <= i < |h| :: !h[i]
    ensures n < |h| ==> h[|h| - n - 1]
  {
    if h == [] || h[|h| - 1] then 0 else TrailingMisses(h[..|h| - 1]) + 1
  }

  /** The number of consecutive misses that ends a track. */
  const GAP := 31

  predicate HitFrom(h: History, i: nat)
    requires i + GAP <= |h|
  {
    exists j :: i <= j < i + GAP && h[j]
  }

  predicate NoLongGap(h: History) {
    forall i: nat {:trigger HitFrom(h, i)} | i + GAP <= |h| :: HitFrom(h, i)
  }

  /** A history keeps its track alive: the first three entries are hits, and no 31 misses in a row. */
  predicate Held(h: History) {
    (forall i | 0 <= i < |h| && i < 3 :: h[i]) && NoLongGap(h)
  }

  /** The state of a live track, from its counters. */
  function StateOf(hits: nat, sinceUpdate: nat): TrackState {
    if hits < 3 then Tentative else if sinceUpdate == 0 then Confirmed else Lost
  }

  lemma GapAtEnd(h: History)
    requires h != []
    ensures NoLongGap(h) <==> NoLongGap(h[..|h| - 1]) && TrailingMisses(h) <= MAX_LOST_FRAMES
  {
    var p := h[..|h| - 1];
    if NoLongGap(h) {
      forall i: nat {:trigger HitFrom(p, i)} | i + GAP <= |p|
        ensures HitFrom(p, i)
      {
        assert HitFrom(h, i);
        var j :| i <= j < i + GAP && h[j];
        assert p[j];
      }
      if |h| >= GAP {
        assert HitFrom(h, |h| - GAP);
      }
    }
    if NoLongGap(p) && TrailingMisses(h) <= MAX_LOST_FRAMES {
      forall i: nat {:trigger HitFrom(h, i)} | i + GAP <= |h|
        ensures HitFrom(h, i)
      {
        if i + GAP <= |p| {
          assert HitFrom(p, i);
          var j :| i <= j < i + GAP && p[j];
          assert h[j];
        } else {
          assert h[|h| - TrailingMisses(h) - 1];
        }
      }
    }
  }

  lemma HeldByLast(h: History)
    requires |h| > 1
    ensures Held(h) <==>
              Held(h[..|h| - 1]) && (|h| <= MIN_HITS_TO_CONFIRM ==> h[|h| - 1]) && TrailingMisses(h) <= MAX_LOST_FRAMES
  {
    GapAtEnd(h);
    hide NoLongGap, TrailingMisses;
    var p := h[..|h| - 1];
    assert forall i | 0 <= i < |p| :: h[i] == p[i];
  }

  lemma {:induction false} EarlyHits(h: History)
    requires forall i | 0 <= i < |h| && i < MIN_HITS_TO_CONFIRM :: h[i]
    ensures |h| <= MIN_HITS_TO_CONFIRM ==> Hits(h) == |h|
    ensures |h| >= MIN_HITS_TO_CONFIRM ==> Hits(h) >= MIN_HITS_TO_CONFIRM
  {
    if h != [] {
      EarlyHits(h[..|h| - 1]);
    }
  }

  lemma {:induction false} HitsAndMisses(h: History)
    ensures Hits(h) + TrailingMisses(h) <= |h|
  {
    if h != [] {
      HitsAndMisses(h[..|h| - 1]);
    }
  }

  /**
   * A track is alive exactly while its history is held; its counters are then the number of hits, the length and
   * the trailing misses of the history, and its state follows from them.
   */
  lemma {:induction false} LifeAgreesWithHistory(h: History)
    requires Started(h)
    ensures LifeAfter(h).Some? <==> Held(h)
    ensures LifeAfter(h).Some? ==>
              var l := LifeAfter(h).value;
              && l == Life(StateOf(Hits(h), TrailingMisses(h)), Hits(h), |h|, TrailingMisses(h))
              && l.sinceUpdate <= 30
              && l.hits + l.sinceUpdate <= l.age
  {
    if |h| == 1 {
      assert Hits(h) == 1 by {
        assert h[..0] == [];
      }
    } else {
      var p := h[..|h| - 1];
      LifeAgreesWithHistory(p);
      HeldByLast(h);
      HitsAndMisses(h);
      if Held(p) {
        EarlyHits(p);
      }
      hide Held;
    }
  }

  /** Held only depends on the past: once lost for good, a track never comes back. */
  lemma HeldIsPrefixClosed(h: History, hit: bool)
    requires Started(h) && Held(h + [hit])
    ensures Held(h)
  {
    assert (h + [hit])[..|h + [hit]| - 1] == h;
    HeldByLast(h + [hit]);
  }

  function Misses(k: nat): (h: History)
    ensures |h| == k && forall i | 0 <= i < k :: !h[i]
  {
    seq(k, i => false)
  }

  /** After k more misses a live track survives exactly when it has three hits and stays within 30 misses. */
  lemma {:induction false} SurvivesMisses(h: History, k: nat)
    requires Started(h) && Held(h) && k > 0
    ensures Held(h + Misses(k)) <==> Hits(h) >= 3 && TrailingMisses(h) + k <= 30
    ensures TrailingMisses(h + Misses(k)) == TrailingMisses(h) + k
  {
    var all := h + Misses(k);
    assert all[..|all| - 1] == h + Misses(k - 1);
    EarlyHits(h);
    HeldByLast(all);
    if k > 1 {
      SurvivesMisses(h, k - 1);
    } else {
      assert h + Misses(0) == h;
    }
    hide Held;
  }
}
