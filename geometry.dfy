/**
 * Face candidates as the face-landmarks detector reports them, the box normaliser, the
 * "good face" filter, the horizontal centre of a face and the gaze-offset test.
 * Coordinates and scores are exact reals; IEEE rounding is not modelled.
 */
module FaceGeometry {
  import opened Wrappers

  datatype Point = Point(x: real, y: real)

  /** `boundingBox`; either corner may be missing. */
  datatype BoundingBox = BoundingBox(topLeft: Option<Point>, bottomRight: Option<Point>)

  /** One keypoint; a missing or falsy coordinate is recorded as 0 (`k.x || 0`). */
  datatype Keypoint = Keypoint(x: real, y: real)

  /**
   * One raw face candidate. A missing `box` or `keypoints` array is the empty sequence:
   * the source tests only their lengths, so the two cannot be told apart.
   */
  datatype Candidate = Candidate(
    boundingBox: Option<BoundingBox>,
    box: seq<real>,
    keypoints: seq<Keypoint>,
    score: Option<real>,
    probability: Option<real>)

  /** The width and height the filter derives for a candidate. */
  datatype Extent = Extent(width: real, height: real)

  type Pixels = n: int | n > 0 witness 1

  /** The capture canvas, in model coordinates. */
  datatype Frame = Frame(width: Pixels, height: Pixels)

  const MinFaceConfidence: real := 0.45
  const MinFaceAreaFrac: real := 0.03
  const GazeOffsetLimit: real := 0.45

  /** `v.videoWidth || 640` by `v.videoHeight || 480`: a missing (zero) dimension falls back to 640 by 480. */
  function CanvasFrame(videoWidth: nat, videoHeight: nat): (f: Frame)
    ensures videoWidth > 0 ==> f.width == videoWidth
    ensures videoWidth == 0 ==> f.width == 640
    ensures videoHeight > 0 ==> f.height == videoHeight
    ensures videoHeight == 0 ==> f.height == 480
  {
    Frame(if videoWidth > 0 then videoWidth else 640, if videoHeight > 0 then videoHeight else 480)
  }

  /** `pred.boundingBox && pred.boundingBox.topLeft && pred.boundingBox.bottomRight`. */
  predicate HasCorners(c: Candidate) {
    c.boundingBox.Some? && c.boundingBox.value.topLeft.Some? && c.boundingBox.value.bottomRight.Some?
  }

  /** `Math.max(0, v)`. */
  function Clamp(v: real): real {
    if v < 0.0 then 0.0 else v
  }

  function Abs(v: real): real {
    if v < 0.0 then -v else v
  }

  function KeypointXs(kps: seq<Keypoint>): (xs: seq<real>)
    ensures |xs| == |kps| && forall i :: 0 <= i < |kps| ==> xs[i] == kps[i].x
  {
    seq(|kps|, i requires 0 <= i < |kps| => kps[i].x)
  }

  function KeypointYs(kps: seq<Keypoint>): (ys: seq<real>)
    ensures |ys| == |kps| && forall i :: 0 <= i < |kps| ==> ys[i] == kps[i].y
  {
    seq(|kps|, i requires 0 <= i < |kps| => kps[i].y)
  }

  /** `Math.min(...xs)` of a non-empty list: an element no larger than any other. */
  function MinOf(xs: seq<real>): (m: real)
    requires |xs| > 0
    ensures m in xs
    ensures forall i :: 0 <= i < |xs| ==> m <= xs[i]
    decreases |xs|
  {
    if |xs| == 1 then xs[0]
    else
      var rest := MinOf(xs[1..]);
      if xs[0] <= rest then xs[0] else rest
  }

  /** `Math.max(...xs)` of a non-empty list: an element no smaller than any other. */
  function MaxOf(xs: seq<real>): (m: real)
    requires |xs| > 0
    ensures m in xs
    ensures forall i :: 0 <= i < |xs| ==> xs[i] <= m
    decreases |xs|
  {
    if |xs| == 1 then xs[0]
    else
      var rest := MaxOf(xs[1..]);
      if xs[0] >= rest then xs[0] else rest
  }

  function Sum(xs: seq<real>): real
    decreases |xs|
  {
    if xs == [] then 0.0 else xs[0] + Sum(xs[1..])
  }

  /**
   * The box the good-face filter derives: the corner pair first, then `box` as
   * [x, y, w, h] when it has at least four entries, then the bounds of the keypoints;
   * a candidate with none of these shapes has no box.
   */
  function NormalizeBox(c: Candidate): (r: Option<Extent>)
    ensures r.Some? <==> HasCorners(c) || |c.box| >= 4 || |c.keypoints| > 0
    ensures r.Some? ==> r.value.width >= 0.0 && r.value.height >= 0.0
  {
    if HasCorners(c) then
      var tl, br := c.boundingBox.value.topLeft.value, c.boundingBox.value.bottomRight.value;
      Some(Extent(Clamp(br.x - tl.x), Clamp(br.y - tl.y)))
    else if |c.box| >= 4 then
      Some(Extent(Clamp(c.box[2]), Clamp(c.box[3])))
    else if |c.keypoints| > 0 then
      var xs, ys := KeypointXs(c.keypoints), KeypointYs(c.keypoints);
      Some(Extent(Clamp(MaxOf(xs) - MinOf(xs)), Clamp(MaxOf(ys) - MinOf(ys))))
    else
      None
  }

  /** With a corner pair present, `box` and `keypoints` play no part in the box. */
  lemma CornersTakePrecedence(c: Candidate, box: seq<real>, keypoints: seq<Keypoint>)
    requires HasCorners(c)
    ensures NormalizeBox(c) == NormalizeBox(c.(box := box, keypoints := keypoints))
    ensures NormalizeBox(c).value.width ==
      Clamp(c.boundingBox.value.bottomRight.value.x - c.boundingBox.value.topLeft.value.x)
    ensures NormalizeBox(c).value.height ==
      Clamp(c.boundingBox.value.bottomRight.value.y - c.boundingBox.value.topLeft.value.y)
  {
  }

  /** Without a corner pair, a `box` of four or more entries is used and the keypoints are ignored. */
  lemma BoxBeforeKeypoints(c: Candidate, keypoints: seq<Keypoint>)
    requires !HasCorners(c) && |c.box| >= 4
    ensures NormalizeBox(c) == NormalizeBox(c.(keypoints := keypoints))
    ensures NormalizeBox(c) == Some(Extent(Clamp(c.box[2]), Clamp(c.box[3])))
  {
  }

  /**
   * For a keypoint cloud the box is the smallest axis-aligned box holding every keypoint:
   * each keypoint lies inside it and keypoints touch all four sides.
   */
  lemma KeypointBoxIsTightBound(c: Candidate)
    requires !HasCorners(c) && |c.box| < 4 && |c.keypoints| > 0
    ensures NormalizeBox(c).Some?
    ensures
      var e, left, top := NormalizeBox(c).value, MinOf(KeypointXs(c.keypoints)), MinOf(KeypointYs(c.keypoints));
      (forall k :: k in c.keypoints ==> left <= k.x <= left + e.width && top <= k.y <= top + e.height) &&
      (exists k :: k in c.keypoints && k.x == left) &&
      (exists k :: k in c.keypoints && k.x == left + e.width) &&
      (exists k :: k in c.keypoints && k.y == top) &&
      (exists k :: k in c.keypoints && k.y == top + e.height)
  {
    var kps := c.keypoints;
    var xs, ys := KeypointXs(kps), KeypointYs(kps);
    var e := NormalizeBox(c).value;
    assert e.width == MaxOf(xs) - MinOf(xs);
    assert e.height == MaxOf(ys) - MinOf(ys);
    forall k | k in kps
      ensures MinOf(xs) <= k.x <= MinOf(xs) + e.width && MinOf(ys) <= k.y <= MinOf(ys) + e.height
    {
      var i :| 0 <= i < |kps| && kps[i] == k;
      assert xs[i] == k.x && ys[i] == k.y;
    }
    var a :| 0 <= a < |xs| && xs[a] == MinOf(xs);
    assert kps[a] in kps;
    var b :| 0 <= b < |xs| && xs[b] == MaxOf(xs);
    assert kps[b] in kps;
    var d :| 0 <= d < |ys| && ys[d] == MinOf(ys);
    assert kps[d] in kps;
    var f :| 0 <= f < |ys| && ys[f] == MaxOf(ys);
    assert kps[f] in kps;
  }

  /** `pred.score ?? pred.probability ?? null`: `score` when present, else `probability`, else none. */
  function Score(c: Candidate): (r: Option<real>)
    ensures c.score.Some? ==> r == c.score
    ensures c.score.None? ==> r == c.probability
    ensures r.None? <==> c.score.None? && c.probability.None?
  {
    if c.score.Some? then c.score else c.probability
  }

  function FrameArea(frame: Frame): (a: real)
    ensures a > 0.0
  {
    frame.width as real * frame.height as real
  }

  function BoxArea(e: Extent): real {
    e.width * e.height
  }

  function AreaFraction(frame: Frame, e: Extent): real {
    BoxArea(e) / FrameArea(frame)
  }

  /** The filter callback: a box, an area fraction of at least 0.03 and no score below 0.45. */
  predicate IsGoodFace(frame: Frame, c: Candidate)
    ensures IsGoodFace(frame, c) ==> NormalizeBox(c).Some? && (Score(c).None? || Score(c).value >= MinFaceConfidence)
    ensures IsGoodFace(frame, c) ==> HasCorners(c) || |c.box| >= 4 || |c.keypoints| > 0
  {
    match NormalizeBox(c)
    case None => false
    case Some(e) =>
      AreaFraction(frame, e) >= MinFaceAreaFrac &&
      (Score(c).None? || Score(c).value >= MinFaceConfidence)
  }

  /** The area test on pixels: 100 * width * height >= 3 * frame width * frame height. */
  lemma GoodFaceInPixels(frame: Frame, c: Candidate)
    ensures IsGoodFace(frame, c) <==>
      NormalizeBox(c).Some? &&
      100.0 * BoxArea(NormalizeBox(c).value) >= 3.0 * FrameArea(frame) &&
      (Score(c).None? || Score(c).value >= 0.45)
  {
    if NormalizeBox(c).Some? {
      var e := NormalizeBox(c).value;
      var area, fa := BoxArea(e), FrameArea(frame);
      assert area / fa >= MinFaceAreaFrac <==> 100.0 * area >= 3.0 * fa by {
        AreaTest(area, fa);
      }
      assert IsGoodFace(frame, c) <==> area / fa >= MinFaceAreaFrac && (Score(c).None? || Score(c).value >= MinFaceConfidence);
    }
  }

  lemma AreaTest(area: real, frameArea: real)
    requires frameArea > 0.0
    ensures area / frameArea >= MinFaceAreaFrac <==> 100.0 * area >= 3.0 * frameArea
  {
    DivisionThreshold(area, frameArea, MinFaceAreaFrac);
  }

  /** For a positive divisor: x / d >= k exactly when x >= k * d. */
  lemma DivisionThreshold(x: real, d: real, k: real)
    requires d > 0.0
    ensures x / d >= k <==> x >= k * d
    ensures x / d > k <==> x > k * d
  {
    var q := x / d;
    assert q * d == x;
    if q >= k { assert q * d >= k * d; }
    if q < k { assert q * d < k * d; }
    if q > k { assert q * d > k * d; }
    if q <= k { assert q * d <= k * d; }
  }

  /** `predictions.filter(...)`: the good faces, in input order. */
  function GoodFaces(frame: Frame, preds: seq<Candidate>): (good: seq<Candidate>)
    ensures |good| <= |preds|
    ensures forall c :: c in good <==> c in preds && IsGoodFace(frame, c)
    decreases |preds|
  {
    if preds == [] then []
    else (if IsGoodFace(frame, preds[0]) then [preds[0]] else []) + GoodFaces(frame, preds[1..])
  }

  /** `a` is `b` with some elements left out and the rest kept in order. */
  ghost predicate IsSubsequence<T>(a: seq<T>, b: seq<T>)
    decreases |b|
  {
    a == [] || (b != [] && ((a[0] == b[0] && IsSubsequence(a[1..], b[1..])) || IsSubsequence(a, b[1..])))
  }

  /**
   * The filter keeps every good prediction as often as it occurs and drops the others, so the
   * good count is the number of predictions that pass.
   */
  lemma {:induction false} GoodFacesMultiset(frame: Frame, preds: seq<Candidate>)
    ensures forall x :: multiset(GoodFaces(frame, preds))[x] == if IsGoodFace(frame, x) then multiset(preds)[x] else 0
    decreases |preds|
  {
    if preds != [] {
      GoodFacesMultiset(frame, preds[1..]);
      assert preds == [preds[0]] + preds[1..];
      assert multiset(preds) == multiset([preds[0]]) + multiset(preds[1..]);
      var head: seq<Candidate> := if IsGoodFace(frame, preds[0]) then [preds[0]] else [];
      assert GoodFaces(frame, preds) == head + GoodFaces(frame, preds[1..]);
      assert multiset(GoodFaces(frame, preds)) == multiset(head) + multiset(GoodFaces(frame, preds[1..]));
    }
  }

  /** The filter keeps the order of the predictions. */
  lemma {:induction false} GoodFacesInOrder(frame: Frame, preds: seq<Candidate>)
    ensures IsSubsequence(GoodFaces(frame, preds), preds)
    decreases |preds|
  {
    if preds != [] {
      GoodFacesInOrder(frame, preds[1..]);
      var good := GoodFaces(frame, preds);
      if IsGoodFace(frame, preds[0]) {
        assert good[0] == preds[0] && good[1..] == GoodFaces(frame, preds[1..]);
      } else {
        assert good == GoodFaces(frame, preds[1..]);
      }
    }
  }

  /**
   * The horizontal centre used for the gaze test: the corner pair's mid-x first, then the
   * mean keypoint x, then `box[0] + box[2] / 2` when `box` has at least three entries.
   * Every candidate that has a box also has a centre.
   */
  function CenterX(c: Candidate): (r: Option<real>)
    ensures NormalizeBox(c).Some? ==> r.Some?
  {
    if HasCorners(c) then
      Some((c.boundingBox.value.topLeft.value.x + c.boundingBox.value.bottomRight.value.x) / 2.0)
    else if |c.keypoints| > 0 then
      Some(Sum(KeypointXs(c.keypoints)) / (|c.keypoints| as real))
    else if |c.box| >= 3 then
      Some(c.box[0] + c.box[2] / 2.0)
    else
      None
  }

  lemma {:induction false} SumBounds(xs: seq<real>, lo: real, hi: real)
    requires forall i :: 0 <= i < |xs| ==> lo <= xs[i] <= hi
    ensures (|xs| as real) * lo <= Sum(xs) <= (|xs| as real) * hi
    decreases |xs|
  {
    if xs != [] {
      SumBounds(xs[1..], lo, hi);
      assert (|xs| as real) * lo == (|xs[1..]| as real) * lo + lo;
      assert (|xs| as real) * hi == (|xs[1..]| as real) * hi + hi;
    }
  }

  /** A keypoint cloud's centre lies inside the keypoints' horizontal extent. */
  lemma KeypointCenterWithinBounds(c: Candidate)
    requires !HasCorners(c) && |c.keypoints| > 0
    ensures CenterX(c).Some?
    ensures MinOf(KeypointXs(c.keypoints)) <= CenterX(c).value <= MaxOf(KeypointXs(c.keypoints))
  {
    var xs := KeypointXs(c.keypoints);
    MeanWithinExtent(xs);
    assert CenterX(c) == Some(Sum(xs) / (|xs| as real));
  }

  /** The mean of a non-empty sequence lies between its least and its greatest element. */
  lemma MeanWithinExtent(xs: seq<real>)
    requires |xs| > 0
    ensures MinOf(xs) <= Sum(xs) / (|xs| as real) <= MaxOf(xs)
  {
    MeanBounds(xs, MinOf(xs), MaxOf(xs));
  }

  lemma MeanBounds(xs: seq<real>, lo: real, hi: real)
    requires |xs| > 0
    requires forall i :: 0 <= i < |xs| ==> lo <= xs[i] <= hi
    ensures lo <= Sum(xs) / (|xs| as real) <= hi
  {
    SumBounds(xs, lo, hi);
    MeanBetween(Sum(xs), |xs| as real, lo, hi);
  }

  lemma MeanBetween(sum: real, n: real, lo: real, hi: real)
    requires n > 0.0 && n * lo <= sum <= n * hi
    ensures lo <= sum / n <= hi
  {
    DivisionThreshold(sum, n, lo);
    DivisionThreshold(sum, n, hi);
  }

  /** `Math.abs(cx - frameCx) / frameCx` with `frameCx` half the canvas width. */
  function GazeOffset(frame: Frame, cx: real): real {
    Abs(cx - frame.width as real / 2.0) / (frame.width as real / 2.0)
  }

  /**
   * The look-away condition of a face: it has a centre and the offset exceeds 0.45, which is
   * a centre in the outer 27.5% of the canvas on either side.
   */
  predicate LooksAway(frame: Frame, c: Candidate)
    ensures LooksAway(frame, c) <==>
      CenterX(c).Some? &&
      (CenterX(c).value < 0.275 * (frame.width as real) || CenterX(c).value > 0.725 * (frame.width as real))
  {
    match CenterX(c)
    case None => false
    case Some(cx) => GazeOffsetBands(frame, cx); GazeOffset(frame, cx) > GazeOffsetLimit
  }

  /** An offset above 0.45 means a centre in the outer 27.5% of the frame on either side. */
  lemma GazeOffsetBands(frame: Frame, cx: real)
    ensures GazeOffset(frame, cx) > GazeOffsetLimit <==>
      cx < 0.275 * (frame.width as real) || cx > 0.725 * (frame.width as real)
  {
    var w := frame.width as real;
    DivisionThreshold(Abs(cx - w / 2.0), w / 2.0, GazeOffsetLimit);
  }
}
