// Axis-aligned boxes and intersection over union, as both the tracker and the detector compute it.

module Boxes {
  import opened RealFacts

  datatype Box = Box(x1: real, y1: real, x2: real, y2: real) {
    /** Positive width and height, in the sense of BoundingBox.area > 0. */
    predicate Proper() {
      x1 < x2 && y1 < y2
    }
  }

  /** The overlap of two intervals, zero when they do not meet. */
  function Overlap(lo1: real, hi1: real, lo2: real, hi2: real): real {
    Max(0.0, Min(hi1, hi2) - Max(lo1, lo2))
  }

  /** The guarded division of both IoU routines: zero where the union is not positive. */
  function Ratio(inter: real, union: real): real {
    if union > 0.0 then inter / union else 0.0
  }

  function Intersection(a: Box, b: Box): real {
    Times(Overlap(a.x1, a.x2, b.x1, b.x2), Overlap(a.y1, a.y2, b.y1, b.y2))
  }

  /** The code multiplies the raw side lengths, so a box inverted on both axes has positive signed area. */
  function SignedArea(a: Box): real {
    Times(a.x2 - a.x1, a.y2 - a.y1)
  }

  function Union(a: Box, b: Box): real {
    SignedArea(a) + SignedArea(b) - Intersection(a, b)
  }

  function Iou(a: Box, b: Box): real {
    Ratio(Intersection(a, b), Union(a, b))
  }

  /** The tracker's form: one row per box of the first list, empty inputs give zeros of that shape. */
  function IouMatrix(boxesA: seq<Box>, boxesB: seq<Box>): (m: seq<seq<real>>)
    ensures |m| == |boxesA|
    ensures forall i | 0 <= i < |boxesA| :: |m[i]| == |boxesB|
    ensures forall i, j | 0 <= i < |boxesA| && 0 <= j < |boxesB| :: m[i][j] == Iou(boxesA[i], boxesB[j])
  {
    if boxesA == [] || boxesB == [] then
      seq(|boxesA|, i requires 0 <= i < |boxesA| => seq(|boxesB|, j requires 0 <= j < |boxesB| => 0.0))
    else
      seq(|boxesA|, i requires 0 <= i < |boxesA| =>
        seq(|boxesB|, j requires 0 <= j < |boxesB| =>
          var a, b := boxesA[i], boxesB[j];
          var inter := Times(
            Max(0.0, Min(a.x2, b.x2) - Max(a.x1, b.x1)), Max(0.0, Min(a.y2, b.y2) - Max(a.y1, b.y1)));
          Ratio(inter, Times(a.x2 - a.x1, a.y2 - a.y1) + Times(b.x2 - b.x1, b.y2 - b.y1) - inter)))
  }

  /** The detector's form: one box against a list. */
  function IouVector(a: Box, boxes: seq<Box>): (v: seq<real>)
    ensures |v| == |boxes|
  {
    var x1 := seq(|boxes|, j requires 0 <= j < |boxes| => Max(a.x1, boxes[j].x1));
    var y1 := seq(|boxes|, j requires 0 <= j < |boxes| => Max(a.y1, boxes[j].y1));
    var x2 := seq(|boxes|, j requires 0 <= j < |boxes| => Min(a.x2, boxes[j].x2));
    var y2 := seq(|boxes|, j requires 0 <= j < |boxes| => Min(a.y2, boxes[j].y2));
    var inter := seq(|boxes|, j requires 0 <= j < |boxes| => Times(Max(0.0, x2[j] - x1[j]), Max(0.0, y2[j] - y1[j])));
    var areaA := Times(a.x2 - a.x1, a.y2 - a.y1);
    var union := seq(|boxes|, j requires 0 <= j < |boxes| =>
      areaA + Times(boxes[j].x2 - boxes[j].x1, boxes[j].y2 - boxes[j].y1) - inter[j]);
    seq(|boxes|, j requires 0 <= j < |boxes| => Ratio(inter[j], union[j]))
  }

  /** Every row of the tracker's matrix is the detector's vector for that row's box. */
  lemma MatrixAgreesWithVector(boxesA: seq<Box>, boxesB: seq<Box>, i: nat)
    requires i < |boxesA|
    ensures IouMatrix(boxesA, boxesB)[i] == IouVector(boxesA[i], boxesB)
  {
    var row, v := IouMatrix(boxesA, boxesB)[i], IouVector(boxesA[i], boxesB);
    forall j | 0 <= j < |boxesB|
      ensures row[j] == v[j]
    {
    }
  }

  lemma OverlapBounds(lo1: real, hi1: real, lo2: real, hi2: real)
    ensures 0.0 <= Overlap(lo1, hi1, lo2, hi2)
    ensures Overlap(lo1, hi1, lo2, hi2) > 0.0 ==>
              && Overlap(lo1, hi1, lo2, hi2) <= hi1 - lo1
              && Overlap(lo1, hi1, lo2, hi2) <= hi2 - lo2
  {
  }

  /** A positive intersection needs two proper boxes and is no larger than either area. */
  lemma IntersectionBounds(a: Box, b: Box)
    ensures Intersection(a, b) >= 0.0
    ensures Intersection(a, b) > 0.0 ==>
              && a.Proper() && b.Proper()
              && Intersection(a, b) <= SignedArea(a) && Intersection(a, b) <= SignedArea(b)
  {
    OverlapBounds(a.x1, a.x2, b.x1, b.x2);
    OverlapBounds(a.y1, a.y2, b.y1, b.y2);
    var ox, oy := Overlap(a.x1, a.x2, b.x1, b.x2), Overlap(a.y1, a.y2, b.y1, b.y2);
    hide Overlap;
    if ox > 0.0 && oy > 0.0 {
      ProductMonotone(ox, oy, a.x2 - a.x1, a.y2 - a.y1);
      ProductMonotone(ox, oy, b.x2 - b.x1, b.y2 - b.y1);
    } else {
      assert ox == 0.0 || oy == 0.0;
    }
  }

  /** IoU lies in [0, 1] and is symmetric for all boxes, inverted ones included. */
  lemma IouRange(a: Box, b: Box)
    ensures 0.0 <= Iou(a, b) <= 1.0
    ensures Iou(a, b) == Iou(b, a)
  {
    IntersectionBounds(a, b);
    assert Intersection(a, b) == Intersection(b, a);
    if Union(a, b) > 0.0 {
      QuotientBounds(Intersection(a, b), Union(a, b));
    }
  }

  /** When the intersection is as large as both areas, the overlaps are the sides. */
  lemma FullOverlap(a: Box, b: Box)
    requires Intersection(a, b) > 0.0
    requires Intersection(a, b) == SignedArea(a) == SignedArea(b)
    ensures a == b && a.Proper()
  {
    IntersectionBounds(a, b);
    var ox, oy := Overlap(a.x1, a.x2, b.x1, b.x2), Overlap(a.y1, a.y2, b.y1, b.y2);
    assert ox > 0.0 && oy > 0.0;
    ProductStrict(ox, oy, a.x2 - a.x1, a.y2 - a.y1);
    ProductStrict(ox, oy, b.x2 - b.x1, b.y2 - b.y1);
  }

  lemma SelfOverlap(a: Box)
    requires a.Proper()
    ensures Intersection(a, a) == SignedArea(a) > 0.0
  {
  }

  /** IoU is 1 exactly for a proper box against itself. */
  lemma IouOne(a: Box, b: Box)
    ensures Iou(a, b) == 1.0 <==> a == b && a.Proper()
  {
    IntersectionBounds(a, b);
    hide Intersection, SignedArea;
    if Union(a, b) > 0.0 {
      QuotientIsOne(Intersection(a, b), Union(a, b));
      if Iou(a, b) == 1.0 {
        FullOverlap(a, b);
      }
    }
    if a == b && a.Proper() {
      SelfOverlap(a);
      QuotientIsOne(Intersection(a, b), Union(a, b));
    }
  }

  /** Multiply x coordinates by sx and y coordinates by sy. */
  function Scale(a: Box, sx: real, sy: real): Box {
    Box(Times(a.x1, sx), Times(a.y1, sy), Times(a.x2, sx), Times(a.y2, sy))
  }

  lemma OrderScales(a: real, b: real, s: real)
    requires s > 0.0
    ensures a <= b <==> a * s <= b * s
  {
    assert (b - a) * s == b * s - a * s;
  }

  lemma ExtremesScale(a: real, b: real, s: real)
    requires s > 0.0
    ensures Max(Times(a, s), Times(b, s)) == Times(Max(a, b), s)
    ensures Min(Times(a, s), Times(b, s)) == Times(Min(a, b), s)
  {
    OrderScales(a, b, s);
    OrderScales(b, a, s);
  }

  lemma SideScales(lo: real, hi: real, s: real)
    requires s > 0.0
    ensures Times(hi, s) - Times(lo, s) == Times(s, hi - lo)
    ensures Max(0.0, Times(s, hi - lo)) == Times(s, Max(0.0, hi - lo))
  {
    OrderScales(lo, hi, s);
  }

  lemma OverlapScales(lo1: real, hi1: real, lo2: real, hi2: real, s: real)
    requires s > 0.0
    ensures Overlap(Times(lo1, s), Times(hi1, s), Times(lo2, s), Times(hi2, s)) == Times(s, Overlap(lo1, hi1, lo2, hi2))
  {
    hide Times, Max, Min;
    ExtremesScale(lo1, lo2, s);
    ExtremesScale(hi1, hi2, s);
    SideScales(Max(lo1, lo2), Min(hi1, hi2), s);
  }

  lemma TimesScales(s: real, a: real, t: real, b: real)
    ensures Times(Times(s, a), Times(t, b)) == Times(Times(s, t), Times(a, b))
  {
    assert (s * a) * (t * b) == (s * t) * (a * b);
  }

  lemma AreaScales(a: Box, sx: real, sy: real)
    requires sx > 0.0 && sy > 0.0
    ensures SignedArea(Scale(a, sx, sy)) == Times(Times(sx, sy), SignedArea(a))
  {
    hide Times;
    SideScales(a.x1, a.x2, sx);
    SideScales(a.y1, a.y2, sy);
    TimesScales(sx, a.x2 - a.x1, sy, a.y2 - a.y1);
  }

  lemma IntersectionScales(a: Box, b: Box, sx: real, sy: real)
    requires sx > 0.0 && sy > 0.0
    ensures Intersection(Scale(a, sx, sy), Scale(b, sx, sy)) == Times(Times(sx, sy), Intersection(a, b))
  {
    hide Times, Overlap;
    OverlapScales(a.x1, a.x2, b.x1, b.x2, sx);
    OverlapScales(a.y1, a.y2, b.y1, b.y2, sy);
    TimesScales(sx, Overlap(a.x1, a.x2, b.x1, b.x2), sy, Overlap(a.y1, a.y2, b.y1, b.y2));
  }

  lemma RatioCancels(k: real, a: real, b: real, c: real)
    requires k > 0.0
    ensures Ratio(Times(k, a), Times(k, b) + Times(k, c) - Times(k, a)) == Ratio(a, b + c - a)
  {
    var union := b + c - a;
    assert k * b + k * c - k * a == k * union;
    OrderScales(union, 0.0, k);
    if union > 0.0 {
      QuotientCancel(a, union, k);
    }
  }

  /** IoU does not change when both boxes are scaled by the same positive factors per axis. */
  lemma IouScaleInvariant(a: Box, b: Box, sx: real, sy: real)
    requires sx > 0.0 && sy > 0.0
    ensures Iou(Scale(a, sx, sy), Scale(b, sx, sy)) == Iou(a, b)
  {
    assert Times(sx, sy) > 0.0;
    hide Intersection, SignedArea, Ratio, Times;
    AreaScales(a, sx, sy);
    AreaScales(b, sx, sy);
    IntersectionScales(a, b, sx, sy);
    RatioCancels(Times(sx, sy), Intersection(a, b), SignedArea(a), SignedArea(b));
  }

  // ---- What IoU measures ----

  /** The point lies in the box or on its border. */
  predicate Contains(a: Box, x: real, y: real) {
    a.x1 <= x <= a.x2 && a.y1 <= y <= a.y2
  }

  /** The point lies strictly inside the box. */
  predicate Inside(a: Box, x: real, y: real) {
    a.x1 < x < a.x2 && a.y1 < y < a.y2
  }

  /** The points of c are exactly those that lie in both a and b. */
  ghost predicate IsCommonPart(c: Box, a: Box, b: Box) {
    forall x: real, y: real :: Contains(c, x, y) <==> Contains(a, x, y) && Contains(b, x, y)
  }

  /** The corners of the common part of two boxes. */
  lemma CommonCorners(a: Box, b: Box, c: Box)
    requires c.Proper() && IsCommonPart(c, a, b)
    ensures c == Box(Max(a.x1, b.x1), Max(a.y1, b.y1), Min(a.x2, b.x2), Min(a.y2, b.y2))
  {
    var x1, y1, x2, y2 := Max(a.x1, b.x1), Max(a.y1, b.y1), Min(a.x2, b.x2), Min(a.y2, b.y2);
    assert Contains(c, c.x1, c.y1) && Contains(c, c.x2, c.y2);
    assert Contains(c, x1, y1) && Contains(c, x2, y2);
  }

  lemma QuotientTimesBack(p: real, q: real)
    requires q > 0.0
    ensures (p / q) * q == p
  {
  }

  lemma IouOfOverlapping(a: Box, b: Box)
    requires Intersection(a, b) > 0.0
    ensures Iou(a, b) > 0.0 && Union(a, b) >= Intersection(a, b) && Iou(a, b) * Union(a, b) == Intersection(a, b)
  {
    IntersectionBounds(a, b);
    hide Intersection, SignedArea;
    QuotientMonotone(0.0, Intersection(a, b), Union(a, b));
    QuotientTimesBack(Intersection(a, b), Union(a, b));
  }

  lemma CommonArea(a: Box, b: Box, c: Box)
    requires c.Proper() && IsCommonPart(c, a, b)
    ensures Intersection(a, b) == SignedArea(c) > 0.0
  {
    CommonCorners(a, b, c);
    SelfOverlap(c);
  }

  lemma AreaIsProduct(a: Box)
    ensures SignedArea(a) == (a.x2 - a.x1) * (a.y2 - a.y1)
  {
  }

  /** The area of the common part over the area the two boxes cover together. */
  lemma IouIsAreaRatio(a: Box, b: Box, c: Box)
    requires a.Proper() && b.Proper() && c.Proper() && IsCommonPart(c, a, b)
    ensures var areaA, areaB := (a.x2 - a.x1) * (a.y2 - a.y1), (b.x2 - b.x1) * (b.y2 - b.y1);
            var areaC := (c.x2 - c.x1) * (c.y2 - c.y1);
            0.0 < areaC <= areaA + areaB - areaC && Iou(a, b) * (areaA + areaB - areaC) == areaC
  {
    hide Intersection, SignedArea, Iou, IsCommonPart;
    CommonArea(a, b, c);
    IouOfOverlapping(a, b);
    AreaIsProduct(a);
    AreaIsProduct(b);
    AreaIsProduct(c);
  }

  /** Boxes overlap as far as IoU is concerned exactly if some point lies inside both; an inverted box has no inside. */
  lemma IouIsPositiveInside(a: Box, b: Box)
    ensures Iou(a, b) > 0.0 <==> exists x: real, y: real :: Inside(a, x, y) && Inside(b, x, y)
    ensures Iou(a, b) > 0.0 ==> a.Proper() && b.Proper()
    ensures Iou(a, b) > 0.0 ==> exists c: Box :: c.Proper() && IsCommonPart(c, a, b)
  {
    IntersectionBounds(a, b);
    var c := Box(Max(a.x1, b.x1), Max(a.y1, b.y1), Min(a.x2, b.x2), Min(a.y2, b.y2));
    if Intersection(a, b) > 0.0 {
      IouOfOverlapping(a, b);
      assert c.Proper();
      var x, y := (c.x1 + c.x2) / 2.0, (c.y1 + c.y2) / 2.0;
      assert Inside(a, x, y) && Inside(b, x, y);
      assert IsCommonPart(c, a, b);
    } else {
      if x: real, y: real :| Inside(a, x, y) && Inside(b, x, y) {
        assert c.x1 < c.x2 && c.y1 < c.y2;
        SelfOverlap(c);
      }
    }
  }
}
