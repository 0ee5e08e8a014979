/** Decoding of the palm detector's raw outputs: the probability filter, the
    candidate lists, the anchor offset of each candidate box and the seven
    keypoints of a detection. */
module PalmDecoder {
  import opened PalmGeometry

  /** inputSize: the anchor coordinates are fractions of this many pixels. */
  const INPUT_SIZE: real := 192.0
  /** A prediction is a candidate when its probability is strictly above this. */
  const DETECTION_THRESHOLD: real := 0.5
  /** Values per regression row: a box (4 values) and 7 (x, y) keypoints. */
  const REGRESSION_LENGTH: nat := 18
  const KEYPOINT_COUNT: nat := 7

  /** The first two values of an anchor row, its centre as fractions of inputSize. */
  datatype Anchor = Anchor(x: real, y: real)

  predicate IndicesOf(mask: seq<nat>, n: nat)
  {
    forall k :: 0 <= k < |mask| ==> mask[k] < n
  }

  /** outClf.map { sigmoid(it) }, with the logistic function supplied. */
  function Probabilities(outClf: seq<real>, sigmoid: real -> real): (p: seq<real>)
    ensures |p| == |outClf|
    ensures forall i :: 0 <= i < |p| ==> p[i] == sigmoid(outClf[i])
  {
    seq(|outClf|, i requires 0 <= i < |outClf| => sigmoid(outClf[i]))
  }

  /** The candidate indices among the first n probabilities, in ascending order. */
  function SelectPrefix(p: seq<real>, n: nat): (mask: seq<nat>)
    requires n <= |p|
    ensures IndicesOf(mask, n)
    ensures forall a, b :: 0 <= a < b < |mask| ==> mask[a] < mask[b]
    ensures forall i: nat :: i in mask <==> i < n && p[i] > DETECTION_THRESHOLD
  {
    if n == 0 then []
    else SelectPrefix(p, n - 1) + (if p[n - 1] > DETECTION_THRESHOLD then [n - 1] else [])
  }

  /** detectionMask: the indices whose probability is above 0.5. */
  function SelectCandidates(p: seq<real>): (mask: seq<nat>)
  {
    SelectPrefix(p, |p|)
  }

  /** The mask holds exactly the indices with probability strictly above 0.5,
      each once and in ascending order; it is empty exactly when no probability
      exceeds 0.5. */
  lemma SelectCandidatesExact(p: seq<real>)
    ensures var mask := SelectCandidates(p);
            && IndicesOf(mask, |p|)
            && (forall a, b :: 0 <= a < b < |mask| ==> mask[a] < mask[b])
            && (forall i: nat :: i in mask <==> i < |p| && p[i] > DETECTION_THRESHOLD)
    ensures SelectCandidates(p) == [] <==> forall i :: 0 <= i < |p| ==> p[i] <= DETECTION_THRESHOLD
  {
    var mask := SelectCandidates(p);
    if mask != [] {
      assert mask[0] in mask;
    }
  }

  /** A candidate whose probability is the largest among the candidates has
      the largest probability of all predictions, and it exceeds 0.5. */
  lemma CandidateMaximumIsGlobal(p: seq<real>, k: nat)
    requires k < |SelectCandidates(p)|
    requires forall j :: 0 <= j < |SelectCandidates(p)| ==> p[SelectCandidates(p)[j]] <= p[SelectCandidates(p)[k]]
    ensures p[SelectCandidates(p)[k]] > DETECTION_THRESHOLD
    ensures forall i :: 0 <= i < |p| ==> p[i] <= p[SelectCandidates(p)[k]]
  {
    var mask := SelectCandidates(p);
    assert mask[k] in mask;
    forall i | 0 <= i < |p| ensures p[i] <= p[mask[k]] {
      if p[i] > DETECTION_THRESHOLD {
        assert i in mask;
        var j :| 0 <= j < |mask| && mask[j] == i;
      }
    }
  }

  /** detectionMask.map { xs[it] }: the list parallel to the mask. */
  function Gather<T>(xs: seq<T>, mask: seq<nat>): (r: seq<T>)
    requires IndicesOf(mask, |xs|)
    ensures |r| == |mask|
    ensures forall k :: 0 <= k < |mask| ==> r[k] == xs[mask[k]]
  {
    seq(|mask|, k requires 0 <= k < |mask| => xs[mask[k]])
  }

  /** A moved candidate: the box centre offset by the anchor position scaled to
      inputSize, width and height unchanged. */
  function MoveCandidate(detection: seq<real>, anchor: Anchor): (b: CenterBox)
    requires |detection| >= 4
  {
    CenterBox(detection[0] + anchor.x * INPUT_SIZE, detection[1] + anchor.y * INPUT_SIZE, detection[2], detection[3])
  }

  /** Keypoint k: the pair at positions 4 + 2k and 5 + 2k, offset by the bare
      anchor position (centerNoOffset). */
  function Keypoint(detection: seq<real>, anchor: Anchor, k: nat): Point
    requires k < KEYPOINT_COUNT && |detection| >= REGRESSION_LENGTH
  {
    Point(anchor.x * INPUT_SIZE + detection[4 + 2 * k], anchor.y * INPUT_SIZE + detection[5 + 2 * k])
  }

  /** A keypoint sits at its regression offset from the anchor position, not
      from the moved box centre: seen from the moved centre it is displaced by
      the box offset (detection[0], detection[1]) as well. */
  lemma KeypointsOffsetFromBareAnchor(detection: seq<real>, anchor: Anchor, k: nat)
    requires k < KEYPOINT_COUNT && |detection| >= REGRESSION_LENGTH
    ensures var kp := Keypoint(detection, anchor, k);
            var moved := MoveCandidate(detection, anchor);
            && kp.x - anchor.x * INPUT_SIZE == detection[4 + 2 * k]
            && kp.y - anchor.y * INPUT_SIZE == detection[5 + 2 * k]
            && kp.x - moved.cx == detection[4 + 2 * k] - detection[0]
            && kp.y - moved.cy == detection[5 + 2 * k] - detection[1]
            && moved.width == detection[2] && moved.height == detection[3]
  {
  }

  /** The keypoint loop `for (i in 4 until 18 step 2)`: one new two-element
      array per keypoint, appended in order. */
  method ExtractKeypoints(detection: seq<real>, anchor: Anchor) returns (keypoints: seq<array<real>>)
    requires |detection| >= REGRESSION_LENGTH
    ensures |keypoints| == KEYPOINT_COUNT
    ensures forall k :: 0 <= k < |keypoints| ==> fresh(keypoints[k]) && keypoints[k].Length == 2
    ensures forall a, b :: 0 <= a < b < |keypoints| ==> keypoints[a] != keypoints[b]
    ensures forall k :: 0 <= k < |keypoints| ==>
      keypoints[k][0] == Keypoint(detection, anchor, k).x && keypoints[k][1] == Keypoint(detection, anchor, k).y
  {
    var centerNoOffset := Point(anchor.x * INPUT_SIZE, anchor.y * INPUT_SIZE);
    keypoints := [];
    var i := 4;
    while i < 18
      invariant 4 <= i <= 18 && i % 2 == 0 && |keypoints| == (i - 4) / 2
      invariant forall k :: 0 <= k < |keypoints| ==> fresh(keypoints[k]) && keypoints[k].Length == 2
      invariant forall a, b :: 0 <= a < b < |keypoints| ==> keypoints[a] != keypoints[b]
      invariant forall k :: 0 <= k < |keypoints| ==>
        keypoints[k][0] == Keypoint(detection, anchor, k).x && keypoints[k][1] == Keypoint(detection, anchor, k).y
    {
      var kp := new real[2];
      kp[0] := centerNoOffset.x + detection[i];
      kp[1] := centerNoOffset.y + detection[i + 1];
      keypoints := keypoints + [kp];
      i := i + 2;
    }
  }
}
