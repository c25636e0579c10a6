// Decoding a raw YOLO output into detections, and the detector's per-image loop.

module Detectors {
  import opened Wrappers
  import opened Collections
  import opened Boxes
  import opened Suppression
  import opened Tracks
  import TrackIds

  /** One column of the model output: box centre, size and class scores. */
  datatype Candidate = Candidate(cx: real, cy: real, w: real, h: real, scores: seq<real>)

  /** The class with the first highest score. */
  function ArgMax(scores: seq<real>): (c: nat)
    requires scores != []
    ensures c < |scores|
    ensures forall j | 0 <= j < |scores| :: scores[j] <= scores[c]
    ensures forall j | 0 <= j < c :: scores[j] < scores[c]
  {
    if |scores| == 1 then 0
    else
      var last := |scores| - 1;
      var c := ArgMax(scores[..last]);
      if scores[last] > scores[c] then last else c
  }

  predicate HasClasses(raw: seq<Candidate>) {
    forall i | 0 <= i < |raw| :: raw[i].scores != []
  }

  function Confidence(c: Candidate): real
    requires c.scores != []
  {
    c.scores[ArgMax(c.scores)]
  }

  function ModelBox(c: Candidate): Box {
    Box(c.cx - c.w / 2.0, c.cy - c.h / 2.0, c.cx + c.w / 2.0, c.cy + c.h / 2.0)
  }

  /** The candidates at or above the confidence threshold, in order. */
  function Confident(raw: seq<Candidate>, threshold: real): (cs: seq<Candidate>)
    requires HasClasses(raw)
    ensures HasClasses(cs)
    ensures forall c :: c in cs <==> c in raw && Confidence(c) >= threshold
  {
    if raw == [] then []
    else
      var last := raw[|raw| - 1];
      assert raw == raw[..|raw| - 1] + [last];
      Confident(raw[..|raw| - 1], threshold) + (if Confidence(last) >= threshold then [last] else [])
  }

  lemma ConfidentStep(raw: seq<Candidate>, threshold: real)
    requires HasClasses(raw)
    ensures if raw == [] then Confident(raw, threshold) == []
            else
              var last := raw[|raw| - 1];
              Confident(raw, threshold)
              == Confident(raw[..|raw| - 1], threshold) + (if Confidence(last) >= threshold then [last] else [])
  {
    hide Confidence;
  }

  /** The confident candidates are those whose confidence reaches the threshold, each once, in the model's order. */
  lemma {:induction false} ConfidentIs(raw: seq<Candidate>, threshold: real) returns (rows: seq<nat>)
    requires HasClasses(raw)
    ensures Within(rows, |raw|) && Ascending(rows)
    ensures forall i: nat :: i in rows <==> i < |raw| && Confidence(raw[i]) >= threshold
    ensures |Confident(raw, threshold)| == |rows|
    ensures forall r | 0 <= r < |rows| :: Confident(raw, threshold)[r] == raw[rows[r]]
  {
    hide Confident, Confidence;
    ConfidentStep(raw, threshold);
    if raw == [] {
      rows := [];
    } else {
      var last := |raw| - 1;
      rows := ConfidentIs(raw[..last], threshold);
      if Confidence(raw[last]) >= threshold {
        rows := rows + [last];
      }
    }
  }

  function Confidences(cs: seq<Candidate>): (s: seq<real>)
    requires HasClasses(cs)
    ensures |s| == |cs| && forall i | 0 <= i < |cs| :: s[i] == Confidence(cs[i])
  {
    seq(|cs|, i requires 0 <= i < |cs| => Confidence(cs[i]))
  }

  function ModelBoxes(cs: seq<Candidate>): (bs: seq<Box>)
    ensures |bs| == |cs| && forall i | 0 <= i < |cs| :: bs[i] == ModelBox(cs[i])
  {
    seq(|cs|, i requires 0 <= i < |cs| => ModelBox(cs[i]))
  }

  function ClassName(names: map<int, string>, classId: nat): string {
    if classId in names then names[classId] else TrackIds.Decimal(classId)
  }

  /** Frame id, camera id, scale factors to the original image, and class names. */
  datatype Target = Target(frameId: string, cameraId: string, scaleX: real, scaleY: real, names: map<int, string>)

  /** The detection a candidate stands for, in original-image coordinates. */
  function Detected(target: Target, c: Candidate): Detection
    requires c.scores != []
  {
    var classId := ArgMax(c.scores);
    Detection(target.frameId, target.cameraId, Scale(ModelBox(c), target.scaleX, target.scaleY),
              classId, ClassName(target.names, classId), Confidence(c))
  }

  /** The indices of the confident candidates that suppression keeps. */
  function KeptIndices(rank: Ranking, cs: seq<Candidate>, iouThreshold: real): (keep: seq<nat>)
    requires HasClasses(cs)
    ensures Within(keep, |cs|)
  {
    assert Descending(Confidences(cs), rank(Confidences(cs)));
    Greedy(ModelBoxes(cs), iouThreshold, rank(Confidences(cs)))
  }

  function Decode(rank: Ranking, raw: seq<Candidate>, target: Target, confidenceThreshold: real, iouThreshold: real)
    : (ds: seq<Detection>)
    requires HasClasses(raw)
  {
    var cs := Confident(raw, confidenceThreshold);
    var keep := KeptIndices(rank, cs, iouThreshold);
    seq(|keep|, i requires 0 <= i < |keep| => Detected(target, cs[keep[i]]))
  }

  lemma EmptyDecode(rank: Ranking, raw: seq<Candidate>, target: Target, confidenceThreshold: real, iouThreshold: real)
    requires HasClasses(raw) && Confident(raw, confidenceThreshold) == []
    ensures Decode(rank, raw, target, confidenceThreshold, iouThreshold) == []
  {
    assert Descending([], rank([]));
    assert Confidences([]) == [];
  }

  method DecodeYoloOutput(rank: Ranking, raw: seq<Candidate>, target: Target, confidenceThreshold: real,
                          iouThreshold: real)
    returns (detections: seq<Detection>)
    requires HasClasses(raw)
    ensures detections == Decode(rank, raw, target, confidenceThreshold, iouThreshold)
  {
    hide Greedy, Descending, Detected, Confident;
    var cs := Confident(raw, confidenceThreshold);
    if cs == [] {
      EmptyDecode(rank, raw, target, confidenceThreshold, iouThreshold);
      return [];
    }
    var keep := Nms(rank, ModelBoxes(cs), Confidences(cs), iouThreshold);
    detections := [];
    for i := 0 to |keep|
      invariant |detections| == i
      invariant forall k | 0 <= k < i :: detections[k] == Detected(target, cs[keep[k]])
    {
      detections := detections + [Detected(target, cs[keep[i]])];
    }
  }

  // ---- What the decoded detections satisfy ----

  /** Decoded boxes are pairwise within the threshold in original-image coordinates. */
  lemma DecodedAreApart(rank: Ranking, raw: seq<Candidate>, target: Target, confidenceThreshold: real,
                        iouThreshold: real, i: nat, j: nat)
    requires HasClasses(raw) && target.scaleX > 0.0 && target.scaleY > 0.0
    requires var ds := Decode(rank, raw, target, confidenceThreshold, iouThreshold); i < |ds| && j < |ds| && i != j
    ensures var ds := Decode(rank, raw, target, confidenceThreshold, iouThreshold);
            Iou(ds[i].box, ds[j].box) <= iouThreshold
  {
    var cs := Confident(raw, confidenceThreshold);
    var keep := KeptIndices(rank, cs, iouThreshold);
    assert Descending(Confidences(cs), rank(Confidences(cs)));
    KeptAreApart(ModelBoxes(cs), iouThreshold, rank(Confidences(cs)), i, j);
    hide Iou, Scale, Greedy;
    IouScaleInvariant(ModelBox(cs[keep[i]]), ModelBox(cs[keep[j]]), target.scaleX, target.scaleY);
  }

  /** Decoded detections come out in non-increasing confidence, all at or above the threshold. */
  lemma DecodedFall(rank: Ranking, raw: seq<Candidate>, target: Target, confidenceThreshold: real,
                    iouThreshold: real, i: nat, j: nat)
    requires HasClasses(raw)
    requires i <= j < |Decode(rank, raw, target, confidenceThreshold, iouThreshold)|
    ensures var ds := Decode(rank, raw, target, confidenceThreshold, iouThreshold);
            ds[i].confidence >= ds[j].confidence >= confidenceThreshold
  {
    var cs := Confident(raw, confidenceThreshold);
    var scores, keep := Confidences(cs), KeptIndices(rank, cs, iouThreshold);
    var order := rank(scores);
    assert Descending(scores, order);
    assert cs[keep[j]] in cs;
    hide Greedy;
    if i < j {
      assert Earlier(keep, keep[i], keep[j]);
      GreedyKeepsOrder(ModelBoxes(cs), iouThreshold, order, keep[i], keep[j]);
      var q, p :| 0 <= q < p < |order| && order[q] == keep[i] && order[p] == keep[j];
    }
  }

  /** The output is fixed by a candidate: its own detection, or one at least as confident that overlaps it. */
  predicate Accounted(target: Target, c: Candidate, ds: seq<Detection>, iouThreshold: real)
    requires c.scores != []
  {
    var own := Detected(target, c);
    || own in ds
    || exists d :: d in ds && d.confidence >= own.confidence && Iou(d.box, own.box) > iouThreshold
  }

  lemma {:induction false} DistinctCount(order: seq<nat>)
    requires Distinct(order)
    ensures |Elements(order)| == |order|
  {
    if order == [] {
      assert Elements(order) == {};
    } else {
      var rest, last := order[..|order| - 1], order[|order| - 1];
      DistinctCount(rest);
      assert order == rest + [last] && last !in rest;
      assert Elements(order) == Elements(rest) + {last};
    }
  }

  lemma DistinctFillsRange(order: seq<nat>, n: nat)
    requires |order| == n && Within(order, n) && Distinct(order)
    ensures forall x: nat | x < n :: x in order
  {
    DistinctCount(order);
    var missing := Between(0, n) - Elements(order);
    assert Between(0, n) == Elements(order) + missing;
    assert |missing| == 0;
    forall x: nat | x < n
      ensures x in order
    {
      assert x in Between(0, n) && x !in missing;
    }
  }

  lemma OrderIsComplete(scores: seq<real>, order: seq<nat>, x: nat)
    requires Descending(scores, order) && x < |scores|
    ensures x in order
  {
    DistinctFillsRange(order, |scores|);
  }

  /** Every candidate at or above the confidence threshold is output or suppressed by an output one. */
  lemma CandidatesAreAccounted(rank: Ranking, raw: seq<Candidate>, target: Target, confidenceThreshold: real,
                               iouThreshold: real, c: Candidate)
    requires HasClasses(raw) && target.scaleX > 0.0 && target.scaleY > 0.0
    requires c in raw && c.scores != [] && Confidence(c) >= confidenceThreshold
    ensures Accounted(target, c, Decode(rank, raw, target, confidenceThreshold, iouThreshold), iouThreshold)
  {
    var cs := Confident(raw, confidenceThreshold);
    var scores, boxes, keep := Confidences(cs), ModelBoxes(cs), KeptIndices(rank, cs, iouThreshold);
    var order := rank(scores);
    var ds := Decode(rank, raw, target, confidenceThreshold, iouThreshold);
    assert Descending(scores, order);
    var x: nat :| x < |cs| && cs[x] == c;
    hide Greedy, Iou, Scale, Confident;
    if x in keep {
      var k :| 0 <= k < |keep| && keep[k] == x;
      assert ds[k] == Detected(target, c);
    } else {
      OrderIsComplete(scores, order, x);
      DroppedHasSuppressor(boxes, scores, iouThreshold, order, x);
      var a: nat :| a in keep && a < |boxes| && scores[a] >= scores[x] && Iou(boxes[a], boxes[x]) > iouThreshold;
      var k :| 0 <= k < |keep| && keep[k] == a;
      IouScaleInvariant(boxes[a], boxes[x], target.scaleX, target.scaleY);
      assert ds[k] == Detected(target, cs[a]) && ds[k] in ds;
    }
  }

  // ---- Where a decoded detection lies ----

  /** Class k has the highest score, and is the first that does. */
  predicate IsBestClass(scores: seq<real>, k: int) {
    && 0 <= k < |scores|
    && (forall j | 0 <= j < |scores| :: scores[j] <= scores[k])
    && (forall j | 0 <= j < k :: scores[j] < scores[k])
  }

  /** The candidate's centre and size, stretched from width-by-height of the model's square to those of the image. */
  predicate LiesAt(b: Box, c: Candidate, scaleX: real, scaleY: real) {
    && b.x1 + b.x2 == 2.0 * c.cx * scaleX && b.x2 - b.x1 == c.w * scaleX
    && b.y1 + b.y2 == 2.0 * c.cy * scaleY && b.y2 - b.y1 == c.h * scaleY
  }

  /** The detection reports this candidate for this image. */
  predicate Reports(d: Detection, c: Candidate, frameId: string, cameraId: string, names: map<int, string>) {
    && d.frameId == frameId && d.cameraId == cameraId
    && IsBestClass(c.scores, d.classId) && d.confidence == c.scores[d.classId]
    && d.className == if d.classId in names then names[d.classId] else TrackIds.Decimal(d.classId)
  }

  lemma DetectedLies(target: Target, c: Candidate)
    requires c.scores != []
    ensures LiesAt(Detected(target, c).box, c, target.scaleX, target.scaleY)
    ensures Reports(Detected(target, c), c, target.frameId, target.cameraId, target.names)
  {
  }

  /** Every decoded detection reports a candidate of the output, placed by its own centre and size on each axis. */
  lemma DecodedFromCandidate(rank: Ranking, raw: seq<Candidate>, target: Target, confidenceThreshold: real,
                             iouThreshold: real, i: nat)
    returns (c: Candidate)
    requires HasClasses(raw) && i < |Decode(rank, raw, target, confidenceThreshold, iouThreshold)|
    ensures var d := Decode(rank, raw, target, confidenceThreshold, iouThreshold)[i];
            && c in raw && LiesAt(d.box, c, target.scaleX, target.scaleY)
            && Reports(d, c, target.frameId, target.cameraId, target.names)
  {
    hide Detected, Confident, KeptIndices, LiesAt, Reports;
    var cs := Confident(raw, confidenceThreshold);
    c := cs[KeptIndices(rank, cs, iouThreshold)[i]];
    assert c in cs;
    DetectedLies(target, c);
  }

  lemma Regroup(a: real, scale: real, size: real)
    ensures 2.0 * a * scale * size == 2.0 * a * (scale * size) && a * scale * size == a * (scale * size)
  {
  }

  // ---- The per-image loop ----

  /** An image by its size and a reference to its pixels. */
  datatype Image = Image(width: nat, height: nat, pixels: string)

  ghost predicate Classifies(f: Image -> seq<Candidate>) {
    forall image :: HasClasses(f(image))
  }

  /** The foreign model, resizing included: any function whose candidates carry class scores. */
  type Model = f: Image -> seq<Candidate> | Classifies(f) ghost witness (image: Image) => []

  type Pixels = n: nat | n > 0 witness 1

  class OnnxYoloDetector {
    const rank: Ranking
    const infer: Model
    const names: map<int, string>
    const inputSize: Pixels
    const confidenceThreshold: real
    const iouThreshold: real

    constructor (rank: Ranking, infer: Model, names: map<int, string>, inputSize: Pixels,
                 confidenceThreshold: real, iouThreshold: real)
      ensures this.rank == rank && this.infer == infer && this.names == names && this.inputSize == inputSize
      ensures this.confidenceThreshold == confidenceThreshold && this.iouThreshold == iouThreshold
    {
      this.rank := rank;
      this.infer := infer;
      this.names := names;
      this.inputSize := inputSize;
      this.confidenceThreshold := confidenceThreshold;
      this.iouThreshold := iouThreshold;
    }

    /** Scale factors that map the model's square input back to the image. */
    function TargetOf(frameId: string, cameraId: string, image: Image): Target {
      Target(frameId, cameraId, image.width as real / inputSize as real, image.height as real / inputSize as real,
             names)
    }

    /** What one image yields, whatever batch it is in. */
    function DetectOne(frameId: string, cameraId: string, image: Image): seq<Detection> {
      assert Classifies(infer);
      Decode(rank, infer(image), TargetOf(frameId, cameraId, image), confidenceThreshold, iouThreshold)
    }

    lemma ScalesAreSides(frameId: string, cameraId: string, image: Image)
      ensures var target := TargetOf(frameId, cameraId, image);
              && target.scaleX * inputSize as real == image.width as real
              && target.scaleY * inputSize as real == image.height as real
              && target.frameId == frameId && target.cameraId == cameraId && target.names == names
    {
    }

    /** Each detection of an image reports one of the model's candidates, stretched to the image's width and height. */
    lemma DetectedInImage(frameId: string, cameraId: string, image: Image, i: nat) returns (c: Candidate)
      requires i < |DetectOne(frameId, cameraId, image)|
      ensures var d, size := DetectOne(frameId, cameraId, image)[i], inputSize as real;
              && c in infer(image) && Reports(d, c, frameId, cameraId, names) && d.confidence >= confidenceThreshold
              && (d.box.x1 + d.box.x2) * size == 2.0 * c.cx * image.width as real
              && (d.box.x2 - d.box.x1) * size == c.w * image.width as real
              && (d.box.y1 + d.box.y2) * size == 2.0 * c.cy * image.height as real
              && (d.box.y2 - d.box.y1) * size == c.h * image.height as real
    {
      hide Decode, OnnxYoloDetector.TargetOf, Reports;
      assert Classifies(infer);
      var target, size := TargetOf(frameId, cameraId, image), inputSize as real;
      ScalesAreSides(frameId, cameraId, image);
      c := DecodedFromCandidate(rank, infer(image), target, confidenceThreshold, iouThreshold, i);
      DecodedFall(rank, infer(image), target, confidenceThreshold, iouThreshold, i, i);
      Regroup(c.cx, target.scaleX, size);
      Regroup(c.w, target.scaleX, size);
      Regroup(c.cy, target.scaleY, size);
      Regroup(c.h, target.scaleY, size);
    }

    /** What one image yields is pairwise apart and leaves no confident candidate unaccounted for. */
    lemma DetectedAreSelected(frameId: string, cameraId: string, image: Image)
      requires image.width > 0 && image.height > 0
      ensures var ds := DetectOne(frameId, cameraId, image);
              && (forall i, j | 0 <= i < |ds| && 0 <= j < |ds| && i != j :: Iou(ds[i].box, ds[j].box) <= iouThreshold)
              && forall c | c in infer(image) && c.scores != [] && Confidence(c) >= confidenceThreshold ::
                   Accounted(TargetOf(frameId, cameraId, image), c, ds, iouThreshold)
    {
      hide Decode, Accounted, Iou;
      assert Classifies(infer);
      var target, raw := TargetOf(frameId, cameraId, image), infer(image);
      var ds := DetectOne(frameId, cameraId, image);
      ScalesArePositive(frameId, cameraId, image);
      forall i: nat, j: nat | i < |ds| && j < |ds| && i != j
        ensures Iou(ds[i].box, ds[j].box) <= iouThreshold
      {
        DecodedAreApart(rank, raw, target, confidenceThreshold, iouThreshold, i, j);
      }
      forall c | c in raw && c.scores != [] && Confidence(c) >= confidenceThreshold
        ensures Accounted(target, c, ds, iouThreshold)
      {
        CandidatesAreAccounted(rank, raw, target, confidenceThreshold, iouThreshold, c);
      }
    }

    lemma ScalesArePositive(frameId: string, cameraId: string, image: Image)
      requires image.width > 0 && image.height > 0
      ensures TargetOf(frameId, cameraId, image).scaleX > 0.0 && TargetOf(frameId, cameraId, image).scaleY > 0.0
    {
      ScalesAreSides(frameId, cameraId, image);
    }

    method DetectImage(frameId: string, cameraId: string, image: Image) returns (detections: seq<Detection>)
      ensures detections == DetectOne(frameId, cameraId, image)
    {
      assert Classifies(infer);
      detections := DecodeYoloOutput(rank, infer(image), TargetOf(frameId, cameraId, image), confidenceThreshold,
                                     iouThreshold);
      hide Decode, OnnxYoloDetector.TargetOf;
    }

    /** The loop over a batch whose lists have the same length. */
    method DetectEach(frameIds: seq<string>, cameraIds: seq<string>, images: seq<Image>)
      returns (detections: seq<seq<Detection>>)
      requires |frameIds| == |cameraIds| == |images|
      ensures |detections| == |images|
      ensures forall i | 0 <= i < |images| :: detections[i] == DetectOne(frameIds[i], cameraIds[i], images[i])
    {
      detections := [];
      hide OnnxYoloDetector.DetectOne;
      for i := 0 to |images|
        invariant |detections| == i
        invariant forall k | 0 <= k < i :: detections[k] == DetectOne(frameIds[k], cameraIds[k], images[k])
      {
        var decoded := DetectImage(frameIds[i], cameraIds[i], images[i]);
        detections := detections + [decoded];
      }
    }

    method DetectBatch(frameIds: seq<string>, cameraIds: seq<string>, images: seq<Image>)
      returns (r: Result<seq<seq<Detection>>>)
      ensures r.ValueError? <==> |frameIds| != |images| || |cameraIds| != |images|
      ensures r.Ok? ==> |r.value| == |images|
      ensures r.Ok? ==> forall i | 0 <= i < |images| :: r.value[i] == DetectOne(frameIds[i], cameraIds[i], images[i])
    {
      hide OnnxYoloDetector.DetectOne;
      if |frameIds| != |images| || |cameraIds| != |images| {
        return ValueError("frame_ids, camera_ids, and images must be the same length");
      }
      var detections := DetectEach(frameIds, cameraIds, images);
      r := Ok(detections);
    }
  }
}
