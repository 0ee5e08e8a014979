/** The post-processing half of PalmModel.detect: from the classifier logits,
    the regression rows and the anchors to at most one bounding box. The
    logistic function, the square root and the affine solve of
    android.graphics.Matrix are parameters. */
module PalmModel {
  import opened PalmGeometry
  import opened PalmDecoder
  import opened PalmSuppression

  /** The defaults of the constructor parameters boxEnlarge and boxShift. */
  const BOX_ENLARGE: real := 1.5
  const BOX_SHIFT: real := 0.2

  /** The debug loop `for (i in 0..5)` reads predictions 0 to 5. */
  const LOGGED_PREDICTIONS: nat := 6

  /** The BoundingBox record, in original-image pixels. */
  datatype BoundingBox = BoundingBox(x: real, y: real, width: real, height: real, confidence: real)

  /** Why detect does not produce its list. DegenerateAxis: the keypoint
      triangle cannot be built, because kp0 and kp2 are at distance 0 and the
      normalisation divides by that length. TooFewPredictions: the debug loop
      over predictions 0 to 5 indexes past the end of a shorter output. */
  datatype DetectError = DegenerateAxis | TooFewPredictions

  datatype Result<T> = Success(value: T) | Failure(error: DetectError)

  /** setPolyToPoly(source -> target), invert, then mapPoints on the corners:
      given the source triangle, the target triangle and the corners to map,
      the mapped corners. */
  type AffineMap = (Triangle, Triangle, Quad) -> Quad

  // ---------------------------------------------------------------------------
  // getTriangle and the box shift, on the FloatArrays of the source

  function PointOf(a: array<real>): Point
    requires a.Length == 2
    reads a
  {
    Point(a[0], a[1])
  }

  function TriangleOf(p0: array<real>, p1: array<real>, p2: array<real>): Triangle
    requires p0.Length == 2 && p1.Length == 2 && p2.Length == 2
    reads p0, p1, p2
  {
    Triangle(PointOf(p0), PointOf(p1), PointOf(p2))
  }

  /** dirV[0]^2 + dirV[1]^2 before normalisation, the argument of sqrt. */
  function AxisSquared(kp0: Point, kp2: Point): real
  {
    (kp2.x - kp0.x) * (kp2.x - kp0.x) + (kp2.y - kp0.y) * (kp2.y - kp0.y)
  }

  /** getTriangle: the first vertex is kp2 itself (the same array), the other
      two are new arrays at dist along the normalised axis and along the axis
      turned by r90. */
  method GetTriangle(kp0: array<real>, kp2: array<real>, sqrt: real -> real, dist: real := 1.0)
    returns (triangle: seq<array<real>>)
    requires kp0.Length == 2 && kp2.Length == 2
    requires sqrt(AxisSquared(PointOf(kp0), PointOf(kp2))) != 0.0
    ensures |triangle| == 3 && triangle[0] == kp2 && fresh(triangle[1]) && fresh(triangle[2])
    ensures triangle[1] != triangle[2]
    ensures forall k :: 0 <= k < 3 ==> triangle[k].Length == 2
    ensures TriangleOf(triangle[0], triangle[1], triangle[2])
         == KeypointTriangle(PointOf(kp0), PointOf(kp2), dist, sqrt(AxisSquared(PointOf(kp0), PointOf(kp2))))
  {
    ghost var a, b := PointOf(kp0), PointOf(kp2);
    var dirV := new real[] [kp2[0] - kp0[0], kp2[1] - kp0[1]];
    assert dirV[0] == b.x - a.x && dirV[1] == b.y - a.y;
    assert dirV[0] * dirV[0] + dirV[1] * dirV[1] == AxisSquared(a, b);
    var length := sqrt(dirV[0] * dirV[0] + dirV[1] * dirV[1]);
    dirV[0] := dirV[0] / length;
    dirV[1] := dirV[1] / length;
    assert Direction(a, b, length) == PointOf(dirV);
    var dirVR := Point(dirV[0] * R90.m00 + dirV[1] * R90.m01, dirV[0] * R90.m10 + dirV[1] * R90.m11);
    var p1 := new real[] [kp2[0] + dirV[0] * dist, kp2[1] + dirV[1] * dist];
    var p2 := new real[] [kp2[0] + dirVR.x * dist, kp2[1] + dirVR.y * dist];
    triangle := [kp2, p1, p2];
  }

  /** source.forEach { point -> point -= shift }: each of the distinct vertex
      arrays moves by -shift, and nothing else changes. */
  method ShiftVertices(source: seq<array<real>>, shift: Point)
    requires forall k :: 0 <= k < |source| ==> source[k].Length == 2
    requires forall a, b :: 0 <= a < b < |source| ==> source[a] != source[b]
    modifies set k | 0 <= k < |source| :: source[k]
    ensures forall k :: 0 <= k < |source| ==> PointOf(source[k]) == Sub(old(PointOf(source[k])), shift)
  {
    var i := 0;
    while i < |source|
      invariant 0 <= i <= |source|
      invariant forall k :: 0 <= k < i ==> PointOf(source[k]) == Sub(old(PointOf(source[k])), shift)
      invariant forall k :: i <= k < |source| ==> PointOf(source[k]) == old(PointOf(source[k]))
    {
      var point := source[i];
      point[0] := point[0] - shift.x;
      point[1] := point[1] - shift.y;
      i := i + 1;
    }
  }

  // ---------------------------------------------------------------------------
  // The final box

  /** maxOf(bitmap.width, bitmap.height) / inputSize: scaled back by inputSize
      it covers both sides and equals one of them. */
  function Scale(bitmapWidth: int, bitmapHeight: int): (s: real)
    ensures s * INPUT_SIZE >= bitmapWidth as real && s * INPUT_SIZE >= bitmapHeight as real
    ensures s * INPUT_SIZE == bitmapWidth as real || s * INPUT_SIZE == bitmapHeight as real
  {
    (if bitmapWidth >= bitmapHeight then bitmapWidth else bitmapHeight) as real / INPUT_SIZE
  }

  /** The BoundingBox read off the mapped corners: the first corner is the
      origin, the width runs to the second corner and the height from the
      second to the third, all scaled. */
  function FinalBox(finalBox: Quad, scale: real, confidence: real): (b: BoundingBox)
  {
    BoundingBox(finalBox.c0.x * scale, finalBox.c0.y * scale,
                (finalBox.c1.x - finalBox.c0.x) * scale, (finalBox.c2.y - finalBox.c1.y) * scale,
                confidence)
  }

  /** The scale factor depends only on the larger side: it is the same for a
      portrait and a landscape bitmap, it brings inputSize up to both sides,
      and it is positive for a bitmap with positive sides. */
  lemma ScaleCoversBothSides(bitmapWidth: int, bitmapHeight: int)
    ensures Scale(bitmapWidth, bitmapHeight) == Scale(bitmapHeight, bitmapWidth)
    ensures Scale(bitmapWidth, bitmapHeight) * INPUT_SIZE >= bitmapWidth as real
    ensures Scale(bitmapWidth, bitmapHeight) * INPUT_SIZE >= bitmapHeight as real
    ensures bitmapWidth > 0 && bitmapHeight > 0 ==> Scale(bitmapWidth, bitmapHeight) > 0.0
  {
  }

  /** When the first two mapped corners lie on one horizontal line, the box is
      the scaled rectangle [c0.x, c1.x] x [c0.y, c2.y]; with a positive scale
      and the corners in reading order, its sides are non-negative. */
  lemma FinalBoxOfAxisAlignedQuad(finalBox: Quad, scale: real, confidence: real)
    requires finalBox.c1.y == finalBox.c0.y
    ensures var b := FinalBox(finalBox, scale, confidence);
            && b.x == finalBox.c0.x * scale && b.x + b.width == finalBox.c1.x * scale
            && b.y == finalBox.c0.y * scale && b.y + b.height == finalBox.c2.y * scale
            && b.confidence == confidence
            && (scale > 0.0 && finalBox.c0.x <= finalBox.c1.x && finalBox.c1.y <= finalBox.c2.y
                ==> b.width >= 0.0 && b.height >= 0.0)
  {
    var b := FinalBox(finalBox, scale, confidence);
    assert b.x + b.width == finalBox.c0.x * scale + (finalBox.c1.x - finalBox.c0.x) * scale;
    assert b.y + b.height == finalBox.c0.y * scale + (finalBox.c2.y - finalBox.c1.y) * scale;
    if scale > 0.0 && finalBox.c0.x <= finalBox.c1.x && finalBox.c1.y <= finalBox.c2.y {
      NonNegativeProduct(finalBox.c1.x - finalBox.c0.x, scale);
      NonNegativeProduct(finalBox.c2.y - finalBox.c1.y, scale);
    }
  }

  /** p -> k * p + t: a uniform scaling followed by a translation. */
  function ScaleAndTranslate(k: real, t: Point, p: Point): Point
  {
    Point(k * p.x + t.x, k * p.y + t.y)
  }

  function MapQuad(k: real, t: Point, q: Quad): Quad
  {
    Quad(ScaleAndTranslate(k, t, q.c0), ScaleAndTranslate(k, t, q.c1),
         ScaleAndTranslate(k, t, q.c2), ScaleAndTranslate(k, t, q.c3))
  }

  /** When the inverse transform is a uniform scaling by k followed by a
      translation by t (no rotation or shear), targetBox maps to a square, and
      the box is the scaled square at t with side 256 k. The identity, which
      Matrix.invert leaves in place when it fails, is the case k = 1, t = 0. */
  lemma FinalBoxOfSimilarity(k: real, t: Point, scale: real, confidence: real)
    ensures FinalBox(MapQuad(k, t, TARGET_BOX), scale, confidence)
         == BoundingBox(t.x * scale, t.y * scale, 256.0 * k * scale, 256.0 * k * scale, confidence)
  {
    var q := MapQuad(k, t, TARGET_BOX);
    assert q.c0 == t;
    assert q.c1 == Point(k * 256.0 + t.x, t.y);
    assert q.c2 == Point(k * 256.0 + t.x, k * 256.0 + t.y);
    assert (q.c1.x - q.c0.x) * scale == 256.0 * k * scale;
    assert (q.c2.y - q.c1.y) * scale == 256.0 * k * scale;
  }

  // ---------------------------------------------------------------------------
  // detect, from the model outputs on

  /** The shapes the model's outputs have: one regression row of at least 18
      values and one anchor per prediction. */
  predicate WellShaped(outReg: seq<seq<real>>, outClf: seq<real>, anchors: seq<Anchor>)
  {
    |outReg| == |outClf| <= |anchors| && forall i :: 0 <= i < |outReg| ==> |outReg[i]| >= REGRESSION_LENGTH
  }

  function MovedCandidates(candidateDetect: seq<seq<real>>, candidateAnchors: seq<Anchor>): (moved: seq<CenterBox>)
    requires |candidateDetect| == |candidateAnchors|
    requires forall k :: 0 <= k < |candidateDetect| ==> |candidateDetect[k]| >= 4
    ensures |moved| == |candidateDetect|
    ensures forall k :: 0 <= k < |moved| ==> moved[k] == MoveCandidate(candidateDetect[k], candidateAnchors[k])
  {
    seq(|candidateDetect|, k requires 0 <= k < |candidateDetect| => MoveCandidate(candidateDetect[k], candidateAnchors[k]))
  }

  /** The box shift: boxShift times kp0 - kp2. */
  function Shift(kp0: Point, kp2: Point, boxShift: real): Point
  {
    Point((kp0.x - kp2.x) * boxShift, (kp0.y - kp2.y) * boxShift)
  }

  /** The box built from one selected detection. */
  function BoxOf(detection: seq<real>, anchor: Anchor, confidence: real,
                 sqrt: real -> real, affine: AffineMap, bitmapWidth: int, bitmapHeight: int,
                 boxEnlarge: real := BOX_ENLARGE, boxShift: real := BOX_SHIFT): Result<BoundingBox>
    requires |detection| >= REGRESSION_LENGTH
  {
    var kp0 := Keypoint(detection, anchor, 0);
    var kp2 := Keypoint(detection, anchor, 2);
    var side := Max(detection[2], detection[3]) * boxEnlarge;
    var length := sqrt(AxisSquared(kp0, kp2));
    if length == 0.0 then Failure(DegenerateAxis)
    else
      var source := ShiftTriangle(KeypointTriangle(kp0, kp2, side, length), Shift(kp0, kp2, boxShift));
      var finalBox := affine(source, TARGET_TRIANGLE, TARGET_BOX);
      Success(FinalBox(finalBox, Scale(bitmapWidth, bitmapHeight), confidence))
  }

  /** What detect returns, from the point where the model outputs are read:
      the debug loop fails on fewer than six predictions, then the outputs are
      post-processed. */
  function Detection(outReg: seq<seq<real>>, outClf: seq<real>, anchors: seq<Anchor>,
                     sigmoid: real -> real, sqrt: real -> real, affine: AffineMap,
                     bitmapWidth: int, bitmapHeight: int,
                     boxEnlarge: real := BOX_ENLARGE, boxShift: real := BOX_SHIFT): Result<seq<BoundingBox>>
    requires WellShaped(outReg, outClf, anchors)
  {
    if |outClf| < LOGGED_PREDICTIONS then Failure(TooFewPredictions)
    else PostProcess(outReg, outClf, anchors, sigmoid, sqrt, affine, bitmapWidth, bitmapHeight, boxEnlarge, boxShift)
  }

  /** Filter, decode, suppress, and turn the best remaining candidate into one box. */
  function PostProcess(outReg: seq<seq<real>>, outClf: seq<real>, anchors: seq<Anchor>,
                       sigmoid: real -> real, sqrt: real -> real, affine: AffineMap,
                       bitmapWidth: int, bitmapHeight: int, boxEnlarge: real, boxShift: real): Result<seq<BoundingBox>>
    requires WellShaped(outReg, outClf, anchors)
  {
    var probabilities := Probabilities(outClf, sigmoid);
    var detectionMask := SelectCandidates(probabilities);
    if |detectionMask| == 0 then Success([])
    else
      var candidateDetect := Gather(outReg, detectionMask);
      var candidateAnchors := Gather(anchors, detectionMask);
      var candidateProbs := Gather(probabilities, detectionMask);
      var selected := KeptIndices(MovedCandidates(candidateDetect, candidateAnchors), candidateProbs,
                                  DEFAULT_OVERLAP_THRESHOLD);
      if |selected| == 0 then Success([])
      else
        KeptIndicesOrdered(MovedCandidates(candidateDetect, candidateAnchors), candidateProbs, DEFAULT_OVERLAP_THRESHOLD);
        var index := selected[0];
        match BoxOf(candidateDetect[index], candidateAnchors[index], candidateProbs[index],
                    sqrt, affine, bitmapWidth, bitmapHeight, boxEnlarge, boxShift)
        case Success(box) => Success([box])
        case Failure(e) => Failure(e)
  }

  /** The part of detect after suppression: keypoints, triangle, shift, the
      affine map and the rescaled box, for the selected detection. */
  method SelectedBox(detection: seq<real>, anchor: Anchor, confidence: real,
                     sqrt: real -> real, affine: AffineMap, bitmapWidth: int, bitmapHeight: int,
                     boxEnlarge: real := BOX_ENLARGE, boxShift: real := BOX_SHIFT)
    returns (r: Result<BoundingBox>)
    requires |detection| >= REGRESSION_LENGTH
    ensures r == BoxOf(detection, anchor, confidence, sqrt, affine, bitmapWidth, bitmapHeight, boxEnlarge, boxShift)
  {
    var keypoints := ExtractKeypoints(detection, anchor);
    var side := Max(detection[2], detection[3]) * boxEnlarge;
    ghost var kp0, kp2 := Keypoint(detection, anchor, 0), Keypoint(detection, anchor, 2);
    assert PointOf(keypoints[0]) == kp0 && PointOf(keypoints[2]) == kp2;
    if sqrt(AxisSquared(PointOf(keypoints[0]), PointOf(keypoints[2]))) == 0.0 {
      return Failure(DegenerateAxis);
    }
    var source := GetTriangle(keypoints[0], keypoints[2], sqrt, side);
    var shift := Point((keypoints[0][0] - keypoints[2][0]) * boxShift, (keypoints[0][1] - keypoints[2][1]) * boxShift);
    assert shift == Shift(kp0, kp2, boxShift);
    ghost var unshifted := TriangleOf(source[0], source[1], source[2]);
    assert unshifted == KeypointTriangle(kp0, kp2, side, sqrt(AxisSquared(kp0, kp2)));
    ShiftVertices(source, shift);
    assert TriangleOf(source[0], source[1], source[2]) == ShiftTriangle(unshifted, shift);
    var finalBox := affine(TriangleOf(source[0], source[1], source[2]), TARGET_TRIANGLE, TARGET_BOX);
    r := Success(FinalBox(finalBox, Scale(bitmapWidth, bitmapHeight), confidence));
  }

  /** detect after inference: the debug read of the first six predictions,
      then filter, decode, suppress, and turn the best remaining candidate into
      one box through its keypoint triangle. */
  method Detect(outReg: seq<seq<real>>, outClf: seq<real>, anchors: seq<Anchor>,
                sigmoid: real -> real, sqrt: real -> real, affine: AffineMap,
                bitmapWidth: int, bitmapHeight: int,
                boxEnlarge: real := BOX_ENLARGE, boxShift: real := BOX_SHIFT) returns (r: Result<seq<BoundingBox>>)
    requires WellShaped(outReg, outClf, anchors)
    ensures r == Detection(outReg, outClf, anchors, sigmoid, sqrt, affine, bitmapWidth, bitmapHeight, boxEnlarge, boxShift)
  {
    if |outClf| < LOGGED_PREDICTIONS {
      return Failure(TooFewPredictions);
    }
    var probabilities := Probabilities(outClf, sigmoid);
    var detectionMask := SelectCandidates(probabilities);
    if |detectionMask| == 0 {
      return Success([]);
    }
    var candidateDetect := Gather(outReg, detectionMask);
    var candidateAnchors := Gather(anchors, detectionMask);
    var candidateProbs := Gather(probabilities, detectionMask);
    var movedCandidates := MovedCandidates(candidateDetect, candidateAnchors);
    var selectedIndices := NonMaxSuppression(movedCandidates, candidateProbs);
    if |selectedIndices| == 0 {
      return Success([]);
    }
    KeptIndicesOrdered(movedCandidates, candidateProbs, DEFAULT_OVERLAP_THRESHOLD);
    var index := selectedIndices[0];
    var box := SelectedBox(candidateDetect[index], candidateAnchors[index], candidateProbs[index],
                           sqrt, affine, bitmapWidth, bitmapHeight, boxEnlarge, boxShift);
    match box
    case Success(b) => r := Success([b]);
    case Failure(e) => r := Failure(e);
  }

  // ---------------------------------------------------------------------------
  // What detect returns

  /** detect fails on an output of fewer than six predictions; otherwise it
      returns no box exactly when no probability exceeds 0.5, and never more
      than one box. */
  lemma EmptyExactlyWithoutCandidates(outReg: seq<seq<real>>, outClf: seq<real>, anchors: seq<Anchor>,
                                      sigmoid: real -> real, sqrt: real -> real, affine: AffineMap,
                                      bitmapWidth: int, bitmapHeight: int, boxEnlarge: real, boxShift: real)
    requires WellShaped(outReg, outClf, anchors)
    ensures var r := Detection(outReg, outClf, anchors, sigmoid, sqrt, affine, bitmapWidth, bitmapHeight, boxEnlarge, boxShift);
            && (r == Failure(TooFewPredictions) <==> |outClf| < LOGGED_PREDICTIONS)
            && (r == Success([]) <==> |outClf| >= LOGGED_PREDICTIONS
                                      && forall i :: 0 <= i < |outClf| ==> sigmoid(outClf[i]) <= DETECTION_THRESHOLD)
            && (r.Success? ==> |r.value| <= 1)
  {
    PostProcessEmptyExactlyWithoutCandidates(outReg, outClf, anchors, sigmoid, sqrt, affine,
                                             bitmapWidth, bitmapHeight, boxEnlarge, boxShift);
  }

  /** Post-processing returns no box exactly when no probability exceeds 0.5,
      never more than one box, and never fails for want of predictions. */
  lemma PostProcessEmptyExactlyWithoutCandidates(outReg: seq<seq<real>>, outClf: seq<real>, anchors: seq<Anchor>,
                                                 sigmoid: real -> real, sqrt: real -> real, affine: AffineMap,
                                                 bitmapWidth: int, bitmapHeight: int, boxEnlarge: real, boxShift: real)
    requires WellShaped(outReg, outClf, anchors)
    ensures var r := PostProcess(outReg, outClf, anchors, sigmoid, sqrt, affine, bitmapWidth, bitmapHeight, boxEnlarge, boxShift);
            && r != Failure(TooFewPredictions)
            && (r == Success([]) <==> forall i :: 0 <= i < |outClf| ==> sigmoid(outClf[i]) <= DETECTION_THRESHOLD)
            && (r.Success? ==> |r.value| <= 1)
  {
    var probabilities := Probabilities(outClf, sigmoid);
    var detectionMask := SelectCandidates(probabilities);
    SelectCandidatesExact(probabilities);
    if |detectionMask| > 0 {
      var candidateDetect := Gather(outReg, detectionMask);
      var candidateAnchors := Gather(anchors, detectionMask);
      var candidateProbs := Gather(probabilities, detectionMask);
      KeptIndicesStartAtMaximum(MovedCandidates(candidateDetect, candidateAnchors), candidateProbs,
                                DEFAULT_OVERLAP_THRESHOLD);
      assert detectionMask[0] in detectionMask;
    }
  }

  /** The single box carries the highest probability of all predictions, which
      is above 0.5, and belongs to some prediction. */
  lemma ConfidenceIsHighestProbability(outReg: seq<seq<real>>, outClf: seq<real>, anchors: seq<Anchor>,
                                       sigmoid: real -> real, sqrt: real -> real, affine: AffineMap,
                                       bitmapWidth: int, bitmapHeight: int, boxEnlarge: real, boxShift: real)
    requires WellShaped(outReg, outClf, anchors)
    ensures var r := Detection(outReg, outClf, anchors, sigmoid, sqrt, affine, bitmapWidth, bitmapHeight, boxEnlarge, boxShift);
            r.Success? && |r.value| > 0 ==>
              && r.value[0].confidence > DETECTION_THRESHOLD
              && (forall i :: 0 <= i < |outClf| ==> sigmoid(outClf[i]) <= r.value[0].confidence)
              && (exists i :: 0 <= i < |outClf| && sigmoid(outClf[i]) == r.value[0].confidence)
  {
    if |outClf| >= LOGGED_PREDICTIONS {
      PostProcessConfidence(outReg, outClf, anchors, sigmoid, sqrt, affine, bitmapWidth, bitmapHeight, boxEnlarge, boxShift);
    }
  }

  /** The box of post-processing carries the highest probability of all
      predictions, which is above 0.5, and belongs to some prediction. */
  lemma PostProcessConfidence(outReg: seq<seq<real>>, outClf: seq<real>, anchors: seq<Anchor>,
                              sigmoid: real -> real, sqrt: real -> real, affine: AffineMap,
                              bitmapWidth: int, bitmapHeight: int, boxEnlarge: real, boxShift: real)
    requires WellShaped(outReg, outClf, anchors)
    ensures var r := PostProcess(outReg, outClf, anchors, sigmoid, sqrt, affine, bitmapWidth, bitmapHeight, boxEnlarge, boxShift);
            r.Success? && |r.value| > 0 ==>
              && r.value[0].confidence > DETECTION_THRESHOLD
              && (forall i :: 0 <= i < |outClf| ==> sigmoid(outClf[i]) <= r.value[0].confidence)
              && (exists i :: 0 <= i < |outClf| && sigmoid(outClf[i]) == r.value[0].confidence)
  {
    var r := PostProcess(outReg, outClf, anchors, sigmoid, sqrt, affine, bitmapWidth, bitmapHeight, boxEnlarge, boxShift);
    if r.Success? && |r.value| > 0 {
      var probabilities := Probabilities(outClf, sigmoid);
      var detectionMask := SelectCandidates(probabilities);
      SelectCandidatesExact(probabilities);
      var candidateDetect := Gather(outReg, detectionMask);
      var candidateAnchors := Gather(anchors, detectionMask);
      var candidateProbs := Gather(probabilities, detectionMask);
      var moved := MovedCandidates(candidateDetect, candidateAnchors);
      var selected := KeptIndices(moved, candidateProbs, DEFAULT_OVERLAP_THRESHOLD);
      KeptIndicesStartAtMaximum(moved, candidateProbs, DEFAULT_OVERLAP_THRESHOLD);
      var index := selected[0];
      assert r.value[0].confidence == candidateProbs[index] == probabilities[detectionMask[index]];
      CandidateMaximumIsGlobal(probabilities, index);
    }
  }

  /** A detection whose keypoints 0 and 2 coincide cannot be turned into a box
      when sqrt(0) is 0. */
  lemma CoincidentKeypointsFail(detection: seq<real>, anchor: Anchor, confidence: real,
                                sqrt: real -> real, affine: AffineMap, bitmapWidth: int, bitmapHeight: int,
                                boxEnlarge: real, boxShift: real)
    requires |detection| >= REGRESSION_LENGTH && sqrt(0.0) == 0.0
    requires detection[4] == detection[8] && detection[5] == detection[9]
    ensures BoxOf(detection, anchor, confidence, sqrt, affine, bitmapWidth, bitmapHeight, boxEnlarge, boxShift)
         == Failure(DegenerateAxis)
  {
    assert AxisSquared(Keypoint(detection, anchor, 0), Keypoint(detection, anchor, 2)) == 0.0;
  }
}
