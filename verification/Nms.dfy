// Greedy non-maximum suppression: the loop, and the unique set of boxes it keeps.

module Suppression {
  import opened Collections
  import opened Boxes

  predicate Distinct(s: seq<nat>) {
    forall p, q | 0 <= p < q < |s| :: s[p] != s[q]
  }

  predicate Falling(scores: seq<real>, order: seq<nat>)
    requires Within(order, |scores|)
  {
    forall p, q | 0 <= p < q < |order| :: scores[order[p]] >= scores[order[q]]
  }

  /** What reversing numpy's argsort promises: all indices once, scores descending, ties in any order. */
  predicate Descending(scores: seq<real>, order: seq<nat>) {
    |order| == |scores| && Within(order, |scores|) && Distinct(order) && Falling(scores, order)
  }

  ghost predicate Ranks(f: seq<real> -> seq<nat>) {
    forall scores :: Descending(scores, f(scores))
  }

  /** Put index i into a descending order of other indices. */
  function Insert(scores: seq<real>, order: seq<nat>, i: nat): (r: seq<nat>)
    requires Within(order, |scores|) && i < |scores|
    ensures |r| == |order| + 1 && Within(r, |scores|)
    ensures forall x :: x in r <==> x == i || x in order
  {
    if order == [] || scores[i] > scores[order[0]] then [i] + order
    else [order[0]] + Insert(scores, order[1..], i)
  }

  function RankPrefix(scores: seq<real>, n: nat): (order: seq<nat>)
    requires n <= |scores|
    ensures |order| == n && Within(order, n)
  {
    if n == 0 then []
    else
      var order := Insert(scores, RankPrefix(scores, n - 1), n - 1);
      assert forall p | 0 <= p < |order| :: order[p] in order;
      order
  }

  lemma HeadKeepsOrder(scores: seq<real>, head: nat, rest: seq<nat>)
    requires head < |scores| && Within(rest, |scores|) && Distinct(rest) && Falling(scores, rest)
    requires forall x | x in rest :: x != head && scores[head] >= scores[x]
    ensures Distinct([head] + rest) && Falling(scores, [head] + rest)
  {
    assert forall p | 0 <= p < |rest| :: rest[p] in rest;
  }

  lemma TailKeepsOrder(scores: seq<real>, order: seq<nat>)
    requires Within(order, |scores|) && Distinct(order) && Falling(scores, order) && order != []
    ensures Distinct(order[1..]) && Falling(scores, order[1..])
    ensures forall x | x in order[1..] :: x != order[0] && scores[order[0]] >= scores[x]
  {
  }

  lemma {:induction false} InsertKeepsOrder(scores: seq<real>, order: seq<nat>, i: nat)
    requires Within(order, |scores|) && i < |scores| && Distinct(order) && i !in order && Falling(scores, order)
    ensures Distinct(Insert(scores, order, i)) && Falling(scores, Insert(scores, order, i))
  {
    hide Distinct, Falling;
    if order == [] {
      HeadKeepsOrder(scores, i, order);
    } else {
      TailKeepsOrder(scores, order);
      if scores[i] > scores[order[0]] {
        HeadKeepsOrder(scores, i, order);
      } else {
        InsertKeepsOrder(scores, order[1..], i);
        HeadKeepsOrder(scores, order[0], Insert(scores, order[1..], i));
      }
    }
  }

  lemma {:induction false} RankPrefixIsDescending(scores: seq<real>, n: nat)
    requires n <= |scores|
    ensures Distinct(RankPrefix(scores, n)) && Falling(scores, RankPrefix(scores, n))
  {
    if n > 0 {
      RankPrefixIsDescending(scores, n - 1);
      InsertKeepsOrder(scores, RankPrefix(scores, n - 1), n - 1);
    }
  }

  /** Insertion sort meets the contract. */
  function InsertionRank(scores: seq<real>): (order: seq<nat>)
    ensures Descending(scores, order)
  {
    RankPrefixIsDescending(scores, |scores|);
    RankPrefix(scores, |scores|)
  }

  /** Any function that meets the contract of scores.argsort()[::-1]. */
  type Ranking = f: seq<real> -> seq<nat> | Ranks(f) ghost witness (scores: seq<real>) => InsertionRank(scores)

  // ---- The loop ----

  predicate Suppresses(boxes: seq<Box>, t: real, a: nat, b: nat)
    requires a < |boxes| && b < |boxes|
  {
    Iou(boxes[a], boxes[b]) > t
  }

  /** Of the remaining indices, those within the threshold of the current box. */
  function Compatible(boxes: seq<Box>, t: real, current: nat, remaining: seq<nat>): (r: seq<nat>)
    requires current < |boxes| && Within(remaining, |boxes|)
    ensures |r| <= |remaining| && Within(r, |boxes|)
    ensures forall x :: x in r <==> x in remaining && !Suppresses(boxes, t, current, x)
  {
    if remaining == [] then []
    else
      var last := remaining[|remaining| - 1];
      assert remaining == remaining[..|remaining| - 1] + [last];
      Compatible(boxes, t, current, remaining[..|remaining| - 1])
      + (if Suppresses(boxes, t, current, last) then [] else [last])
  }

  /** The indices the loop keeps, in order. */
  function Greedy(boxes: seq<Box>, t: real, order: seq<nat>): (keep: seq<nat>)
    requires Within(order, |boxes|)
    ensures |keep| <= |order| && Within(keep, |boxes|)
    ensures forall x | x in keep :: x in order
    decreases |order|
  {
    if order == [] then []
    else [order[0]] + Greedy(boxes, t, Compatible(boxes, t, order[0], order[1..]))
  }

  lemma VectorEntry(a: Box, others: seq<Box>, p: nat)
    requires p < |others|
    ensures IouVector(a, others)[p] == Iou(a, others[p])
  {
    MatrixAgreesWithVector([a], others, 0);
  }

  /** remaining[ious <= threshold] on the detector's IoU vector. */
  method MaskCompatible(boxes: seq<Box>, t: real, current: nat, remaining: seq<nat>) returns (r: seq<nat>)
    requires current < |boxes| && Within(remaining, |boxes|)
    ensures r == Compatible(boxes, t, current, remaining)
  {
    var others := seq(|remaining|, p requires 0 <= p < |remaining| => boxes[remaining[p]]);
    var ious := IouVector(boxes[current], others);
    r := [];
    for p := 0 to |remaining|
      invariant r == Compatible(boxes, t, current, remaining[..p])
    {
      assert remaining[..p + 1][..p] == remaining[..p];
      VectorEntry(boxes[current], others, p);
      if ious[p] <= t {
        r := r + [remaining[p]];
      }
    }
    assert remaining[..|remaining|] == remaining;
  }

  lemma GreedyStep(boxes: seq<Box>, t: real, order: seq<nat>)
    requires order != [] && Within(order, |boxes|)
    ensures order[0] < |boxes| && Within(order[1..], |boxes|)
    ensures Greedy(boxes, t, order) == [order[0]] + Greedy(boxes, t, Compatible(boxes, t, order[0], order[1..]))
    ensures |order| == 1 ==> Compatible(boxes, t, order[0], order[1..]) == []
  {
  }

  lemma GreedyEnd(boxes: seq<Box>, t: real)
    ensures Greedy(boxes, t, []) == []
  {
  }

  /** The loop of _nms over a given order. */
  method NmsLoop(boxes: seq<Box>, t: real, all: seq<nat>) returns (keep: seq<nat>)
    requires Within(all, |boxes|)
    ensures keep == Greedy(boxes, t, all)
  {
    var order := all;
    hide Greedy, Compatible, Within;
    keep := [];
    while |order| > 0
      invariant Within(order, |boxes|)
      invariant keep + Greedy(boxes, t, order) == Greedy(boxes, t, all)
      decreases |order|
    {
      var current := order[0];
      GreedyStep(boxes, t, order);
      keep := keep + [current];
      if |order| == 1 {
        GreedyEnd(boxes, t);
        break;
      }
      order := MaskCompatible(boxes, t, current, order[1..]);
    }
    GreedyEnd(boxes, t);
  }

  method Nms(rank: Ranking, boxes: seq<Box>, scores: seq<real>, t: real) returns (keep: seq<nat>)
    requires |scores| == |boxes|
    ensures Descending(scores, rank(scores)) && keep == Greedy(boxes, t, rank(scores))
  {
    keep := NmsLoop(boxes, t, rank(scores));
  }

  // ---- What it keeps ----

  /** a comes before b. */
  predicate Earlier(order: seq<nat>, a: nat, b: nat) {
    exists q, p :: 0 <= q < p < |order| && order[q] == a && order[p] == b
  }

  /** A kept box that comes before x and overlaps it above the threshold. */
  predicate HasSuppressor(boxes: seq<Box>, t: real, order: seq<nat>, kept: set<nat>, x: nat)
    requires Within(order, |boxes|) && x < |boxes|
  {
    exists a :: a in kept && a in order && Earlier(order, a, x) && Suppresses(boxes, t, a, x)
  }

  /** A box is kept iff no earlier kept box overlaps it above the threshold. */
  predicate IsNms(boxes: seq<Box>, t: real, order: seq<nat>, kept: set<nat>)
    requires Within(order, |boxes|)
  {
    && (forall x | x in kept :: x in order)
    && forall x | x in order :: x in kept <==> !HasSuppressor(boxes, t, order, kept, x)
  }

  function Elements(s: seq<nat>): (e: set<nat>)
    ensures forall x :: x in e <==> x in s
  {
    set x | x in s
  }

  lemma EarlierAtEnd(s: seq<nat>, x: nat, a: nat, b: nat)
    ensures Earlier(s + [x], a, b) <==> Earlier(s, a, b) || (b == x && a in s)
  {
    var all := s + [x];
    if Earlier(s, a, b) {
      var q, p :| 0 <= q < p < |s| && s[q] == a && s[p] == b;
      assert all[q] == a && all[p] == b;
    }
    if b == x && a in s {
      var q :| 0 <= q < |s| && s[q] == a;
      assert all[q] == a && all[|s|] == b;
    }
  }

  lemma EarlierAtStart(x: nat, s: seq<nat>, a: nat, b: nat)
    ensures Earlier([x] + s, a, b) <==> Earlier(s, a, b) || (a == x && b in s)
  {
    var all := [x] + s;
    if Earlier(s, a, b) {
      var q, p :| 0 <= q < p < |s| && s[q] == a && s[p] == b;
      assert all[q + 1] == a && all[p + 1] == b;
    }
    if a == x && b in s {
      var p :| 0 <= p < |s| && s[p] == b;
      assert all[0] == a && all[p + 1] == b;
    }
    if Earlier(all, a, b) {
      var q, p :| 0 <= q < p < |all| && all[q] == a && all[p] == b;
      assert s[p - 1] == b;
      if q > 0 {
        assert s[q - 1] == a;
      }
    }
  }

  lemma CompatibleAtEnd(boxes: seq<Box>, t: real, current: nat, s: seq<nat>, x: nat)
    requires current < |boxes| && Within(s + [x], |boxes|)
    ensures Within(s, |boxes|) && x < |boxes|
    ensures Compatible(boxes, t, current, s + [x])
         == Compatible(boxes, t, current, s) + (if Suppresses(boxes, t, current, x) then [] else [x])
  {
    var all := s + [x];
    assert all[..|s|] == s && all[|s|] == x;
    forall p | 0 <= p < |s|
      ensures s[p] < |boxes|
    {
      assert all[p] == s[p];
    }
  }

  lemma EarlierInside(s: seq<nat>, a: nat, b: nat)
    ensures Earlier(s, a, b) ==> a in s && b in s
  {
  }

  /** Filtering keeps the relative order. */
  lemma {:induction false} CompatibleKeepsOrder(boxes: seq<Box>, t: real, current: nat, s: seq<nat>, a: nat, b: nat)
    requires current < |boxes| && Within(s, |boxes|)
    ensures var r := Compatible(boxes, t, current, s);
            Earlier(r, a, b) <==> Earlier(s, a, b) && a in r && b in r
  {
    hide Compatible, Earlier, Suppresses;
    if s == [] {
      EarlierInside([], a, b);
      EarlierInside(Compatible(boxes, t, current, s), a, b);
    } else {
      var before, last := s[..|s| - 1], s[|s| - 1];
      assert s == before + [last];
      CompatibleKeepsOrder(boxes, t, current, before, a, b);
      EarlierAtEnd(before, last, a, b);
      EarlierInside(before, a, b);
      var r := Compatible(boxes, t, current, before);
      EarlierAtEnd(r, last, a, b);
      CompatibleAtEnd(boxes, t, current, before, last);
      var full := Compatible(boxes, t, current, s);
      if Suppresses(boxes, t, current, last) {
        assert full == r && last !in r;
      } else {
        assert full == r + [last];
        assert a in full && a in before ==> a in r;
      }
    }
  }

  lemma {:induction false} CompatibleIsDistinct(boxes: seq<Box>, t: real, current: nat, s: seq<nat>)
    requires current < |boxes| && Within(s, |boxes|) && Distinct(s)
    ensures Distinct(Compatible(boxes, t, current, s))
  {
    if s != [] {
      CompatibleIsDistinct(boxes, t, current, s[..|s| - 1]);
      var r := Compatible(boxes, t, current, s[..|s| - 1]);
      forall p | 0 <= p < |r|
        ensures r[p] != s[|s| - 1]
      {
        assert r[p] in r;
      }
    }
  }

  /** One step of the characterisation: from the filtered rest to the whole order. */
  lemma SuppressorStep(boxes: seq<Box>, t: real, c: nat, s: seq<nat>, kept: set<nat>, x: nat)
    requires c < |boxes| && Within(s, |boxes|) && c !in s && x in s
    requires forall y | y in kept :: y in Compatible(boxes, t, c, s)
    ensures Within([c] + s, |boxes|) && x < |boxes|
    ensures HasSuppressor(boxes, t, [c] + s, kept + {c}, x)
       <==> Suppresses(boxes, t, c, x)
            || HasSuppressor(boxes, t, Compatible(boxes, t, c, s), kept, x)
  {
    var r, all := Compatible(boxes, t, c, s), [c] + s;
    hide Suppresses, Earlier;
    if Suppresses(boxes, t, c, x) {
      EarlierAtStart(c, s, c, x);
      assert c in kept + {c} && c in all;
    }
    if HasSuppressor(boxes, t, r, kept, x) {
      var a :| a in kept && a in r && Earlier(r, a, x) && Suppresses(boxes, t, a, x);
      CompatibleKeepsOrder(boxes, t, c, s, a, x);
      EarlierAtStart(c, s, a, x);
      assert a in kept + {c} && a in all;
    }
    if HasSuppressor(boxes, t, all, kept + {c}, x) {
      var a :| a in kept + {c} && a in all && Earlier(all, a, x) && Suppresses(boxes, t, a, x);
      if a != c {
        CompatibleKeepsOrder(boxes, t, c, s, a, x);
        EarlierAtStart(c, s, a, x);
        assert a in kept && a in r;
      }
    }
  }

  lemma FirstIsFree(boxes: seq<Box>, t: real, c: nat, s: seq<nat>, kept: set<nat>)
    requires c < |boxes| && Within([c] + s, |boxes|) && c !in s
    ensures !HasSuppressor(boxes, t, [c] + s, kept, c)
  {
    forall a
      ensures !Earlier([c] + s, a, c)
    {
      EarlierAtStart(c, s, a, c);
      EarlierInside(s, a, c);
    }
  }

  /** A box is kept by the loop iff no earlier kept box overlaps it above the threshold. */
  lemma {:induction false} GreedyIsNms(boxes: seq<Box>, t: real, order: seq<nat>)
    requires Within(order, |boxes|) && Distinct(order)
    ensures IsNms(boxes, t, order, Elements(Greedy(boxes, t, order)))
    decreases |order|
  {
    if order != [] {
      var c, s := order[0], order[1..];
      assert order == [c] + s && c !in s;
      var r := Compatible(boxes, t, c, s);
      CompatibleIsDistinct(boxes, t, c, s);
      GreedyIsNms(boxes, t, r);
      var kept := Elements(Greedy(boxes, t, r));
      assert Elements(Greedy(boxes, t, order)) == kept + {c};
      FirstIsFree(boxes, t, c, s, kept + {c});
      hide Greedy, HasSuppressor, Suppresses;
      forall x | x in order
        ensures x in kept + {c} <==> !HasSuppressor(boxes, t, order, kept + {c}, x)
      {
        if x != c {
          SuppressorStep(boxes, t, c, s, kept, x);
        }
      }
    }
  }

  lemma SameSuppressors(boxes: seq<Box>, t: real, order: seq<nat>, k1: set<nat>, k2: set<nat>, p: nat)
    requires Within(order, |boxes|) && Distinct(order) && p < |order|
    requires forall q | 0 <= q < p :: order[q] in k1 <==> order[q] in k2
    ensures HasSuppressor(boxes, t, order, k1, order[p]) <==> HasSuppressor(boxes, t, order, k2, order[p])
  {
    hide Suppresses;
    forall a | Earlier(order, a, order[p])
      ensures a in k1 <==> a in k2
    {
      var q, r :| 0 <= q < r < |order| && order[q] == a && order[r] == order[p];
    }
  }

  /** Only one set of boxes satisfies the characterisation. */
  lemma {:induction false} NmsIsUnique(boxes: seq<Box>, t: real, order: seq<nat>, k1: set<nat>, k2: set<nat>, p: nat)
    requires Within(order, |boxes|) && Distinct(order) && IsNms(boxes, t, order, k1) && IsNms(boxes, t, order, k2)
    requires p <= |order|
    ensures forall q | 0 <= q < p :: order[q] in k1 <==> order[q] in k2
    ensures p == |order| ==> k1 == k2
  {
    if p > 0 {
      NmsIsUnique(boxes, t, order, k1, k2, p - 1);
      var x := order[p - 1];
      SameSuppressors(boxes, t, order, k1, k2, p - 1);
      assert x in order;
      hide HasSuppressor;
    }
    if p == |order| {
      forall x
        ensures x in k1 <==> x in k2
      {
        if x in k1 || x in k2 {
          var q :| 0 <= q < |order| && order[q] == x;
        }
      }
    }
  }

  // ---- Consequences ----

  /** The loop keeps its boxes in the order it visits them. */
  lemma {:induction false} GreedyKeepsOrder(boxes: seq<Box>, t: real, order: seq<nat>, a: nat, b: nat)
    requires Within(order, |boxes|)
    ensures Earlier(Greedy(boxes, t, order), a, b) ==> Earlier(order, a, b)
    decreases |order|
  {
    if order != [] {
      var c, s := order[0], order[1..];
      var r := Compatible(boxes, t, c, s);
      assert order == [c] + s;
      GreedyKeepsOrder(boxes, t, r, a, b);
      CompatibleKeepsOrder(boxes, t, c, s, a, b);
      EarlierAtStart(c, s, a, b);
      EarlierAtStart(c, Greedy(boxes, t, r), a, b);
      hide Earlier, Compatible;
    }
  }

  /** Kept boxes are pairwise within the threshold. */
  lemma KeptAreApart(boxes: seq<Box>, t: real, order: seq<nat>, i: nat, j: nat)
    requires Within(order, |boxes|) && Distinct(order)
    requires i < |Greedy(boxes, t, order)| && j < |Greedy(boxes, t, order)| && i != j
    ensures var keep := Greedy(boxes, t, order); Iou(boxes[keep[i]], boxes[keep[j]]) <= t
  {
    var keep := Greedy(boxes, t, order);
    var a, b := if i < j then i else j, if i < j then j else i;
    assert Earlier(keep, keep[a], keep[b]);
    GreedyKeepsOrder(boxes, t, order, keep[a], keep[b]);
    GreedyIsNms(boxes, t, order);
    assert keep[a] in Elements(keep) && keep[b] in Elements(keep) && keep[a] in order && keep[b] in order;
    hide Greedy, Earlier;
    assert !Suppresses(boxes, t, keep[a], keep[b]);
    IouRange(boxes[keep[a]], boxes[keep[b]]);
  }

  /** Every dropped box has an earlier kept box of at least its score that overlaps it above the threshold. */
  lemma DroppedHasSuppressor(boxes: seq<Box>, scores: seq<real>, t: real, order: seq<nat>, x: nat)
    requires |scores| == |boxes| && Descending(scores, order) && x in order && x !in Greedy(boxes, t, order)
    ensures exists a ::
              a in Greedy(boxes, t, order) && a < |boxes| && scores[a] >= scores[x] && Iou(boxes[a], boxes[x]) > t
  {
    GreedyIsNms(boxes, t, order);
    var kept := Elements(Greedy(boxes, t, order));
    hide Greedy;
    assert HasSuppressor(boxes, t, order, kept, x);
    var a :| a in kept && a in order && Earlier(order, a, x) && Suppresses(boxes, t, a, x);
    assert scores[a] >= scores[x];
  }

  lemma {:induction false} NothingSuppressed(boxes: seq<Box>, t: real, c: nat, s: seq<nat>)
    requires c < |boxes| && Within(s, |boxes|)
    requires forall p | 0 <= p < |s| :: !Suppresses(boxes, t, c, s[p])
    ensures Compatible(boxes, t, c, s) == s
  {
    hide Suppresses;
    if s != [] {
      NothingSuppressed(boxes, t, c, s[..|s| - 1]);
    }
  }

  lemma {:induction false} ApartIsFixed(boxes: seq<Box>, t: real, s: seq<nat>)
    requires Within(s, |boxes|)
    requires forall p, q | 0 <= p < q < |s| :: !Suppresses(boxes, t, s[p], s[q])
    ensures Greedy(boxes, t, s) == s
  {
    hide Suppresses, Compatible;
    if s != [] {
      var rest := s[1..];
      assert forall p | 0 <= p < |rest| :: rest[p] == s[p + 1];
      NothingSuppressed(boxes, t, s[0], rest);
      ApartIsFixed(boxes, t, rest);
    }
  }

  /** Running the loop again on its survivors, in their order, keeps all of them. */
  lemma NmsIsIdempotent(boxes: seq<Box>, t: real, order: seq<nat>)
    requires Within(order, |boxes|) && Distinct(order)
    ensures Greedy(boxes, t, Greedy(boxes, t, order)) == Greedy(boxes, t, order)
  {
    var keep := Greedy(boxes, t, order);
    forall p, q | 0 <= p < q < |keep|
      ensures !Suppresses(boxes, t, keep[p], keep[q])
    {
      KeptAreApart(boxes, t, order, p, q);
    }
    ApartIsFixed(boxes, t, keep);
  }
}
