/** Geometry primitives of the palm detector: points, boxes in centre and
    corner form, the clamped intersection area and the overlap test of
    non-maximum suppression, the r90 rotation and the keypoint triangle. All
    coordinates are reals standing in for Kotlin Floats. */
module PalmGeometry {

  datatype Point = Point(x: real, y: real)

  /** A candidate box as the decoder writes it: [centreX, centreY, width, height]. */
  datatype CenterBox = CenterBox(cx: real, cy: real, width: real, height: real)

  /** The same box as [x1, y1, x2, y2]. */
  datatype Corners = Corners(xMin: real, yMin: real, xMax: real, yMax: real)

  /** Three points, as the Array<FloatArray> getTriangle returns. */
  datatype Triangle = Triangle(p0: Point, p1: Point, p2: Point)

  /** Four corners, as transformBox returns them for targetBox. */
  datatype Quad = Quad(c0: Point, c1: Point, c2: Point, c3: Point)

  /** A 2x2 matrix, row by row. */
  datatype Mat2 = Mat2(m00: real, m01: real, m10: real, m11: real)

  /** targetTriangle: the canonical triangle the keypoint triangle is mapped onto. */
  const TARGET_TRIANGLE: Triangle := Triangle(Point(128.0, 128.0), Point(128.0, 0.0), Point(0.0, 128.0))

  /** targetBox: the canonical 256 x 256 square, written in the source as
      homogeneous rows (x, y, 1) of which transformBox uses x and y. */
  const TARGET_BOX: Quad := Quad(Point(0.0, 0.0), Point(256.0, 0.0), Point(256.0, 256.0), Point(0.0, 256.0))

  /** r90 = [[0, 1], [-1, 0]]. */
  const R90: Mat2 := Mat2(0.0, 1.0, -1.0, 0.0)

  function Max(a: real, b: real): (m: real)
    ensures m >= a && m >= b && (m == a || m == b)
  {
    if a >= b then a else b
  }

  function Min(a: real, b: real): (m: real)
    ensures m <= a && m <= b && (m == a || m == b)
  {
    if a <= b then a else b
  }

  function Sub(p: Point, q: Point): Point
  {
    Point(p.x - q.x, p.y - q.y)
  }

  function Dot(p: Point, q: Point): real
  {
    p.x * q.x + p.y * q.y
  }

  // ---------------------------------------------------------------------------
  // Boxes

  /** The corner conversion at the start of nonMaxSuppression. */
  function ToCorners(b: CenterBox): (c: Corners)
    ensures c.xMax - c.xMin == b.width && c.yMax - c.yMin == b.height
    ensures (c.xMin + c.xMax) / 2.0 == b.cx && (c.yMin + c.yMax) / 2.0 == b.cy
  {
    Corners(b.cx - b.width / 2.0, b.cy - b.height / 2.0, b.cx + b.width / 2.0, b.cy + b.height / 2.0)
  }

  /** (x2 - x1) * (y2 - y1), as areaI and areaJ are computed. */
  function Area(c: Corners): real
  {
    (c.xMax - c.xMin) * (c.yMax - c.yMin)
  }

  predicate WellFormed(c: Corners)
  {
    c.xMin <= c.xMax && c.yMin <= c.yMax
  }

  /** Neither box reaches into the other along the x axis or along the y axis. */
  predicate Separated(a: Corners, b: Corners)
  {
    a.xMax <= b.xMin || b.xMax <= a.xMin || a.yMax <= b.yMin || b.yMax <= a.yMin
  }

  lemma NonNegativeProduct(a: real, b: real)
    requires a >= 0.0 && b >= 0.0
    ensures a * b >= 0.0
  {
  }

  /** calculateIntersectionArea: the overlap along each axis, clamped at 0,
      multiplied together. */
  function IntersectionArea(a: Corners, b: Corners): (r: real)
    ensures r >= 0.0
    ensures Separated(a, b) ==> r == 0.0
    ensures a == b && WellFormed(a) ==> r == Area(a)
  {
    var w := Max(0.0, Min(a.xMax, b.xMax) - Max(a.xMin, b.xMin));
    var h := Max(0.0, Min(a.yMax, b.yMax) - Max(a.yMin, b.yMin));
    NonNegativeProduct(w, h);
    w * h
  }

  lemma IntersectionSymmetric(a: Corners, b: Corners)
    ensures IntersectionArea(a, b) == IntersectionArea(b, a)
  {
  }

  function UnionArea(a: Corners, b: Corners): real
  {
    Area(a) + Area(b) - IntersectionArea(a, b)
  }

  /** The suppression test `intersection / union > overlapThreshold`. Where the
      union is 0 the Float division gives +Infinity for a positive intersection
      (which exceeds any threshold) and NaN for a zero one (which exceeds none). */
  predicate Suppresses(kept: Corners, other: Corners, overlapThreshold: real)
  {
    var intersection := IntersectionArea(kept, other);
    var union := UnionArea(kept, other);
    if union != 0.0 then intersection / union > overlapThreshold else intersection > 0.0
  }

  /** The overlap test does not depend on which box was kept first. */
  lemma SuppressesSymmetric(a: Corners, b: Corners, overlapThreshold: real)
    ensures Suppresses(a, b, overlapThreshold) <==> Suppresses(b, a, overlapThreshold)
  {
    IntersectionSymmetric(a, b);
    assert UnionArea(a, b) == UnionArea(b, a);
  }

  /** Boxes apart along either axis have IoU 0 and never suppress each other
      under a non-negative threshold. */
  lemma SeparatedNeverSuppress(a: Corners, b: Corners, overlapThreshold: real)
    requires Separated(a, b) && overlapThreshold >= 0.0
    ensures !Suppresses(a, b, overlapThreshold)
  {
    assert IntersectionArea(a, b) == 0.0;
  }

  /** A well-formed box of positive area has IoU 1 with itself, so it
      suppresses its own copy exactly when the threshold is below 1. */
  lemma SelfOverlap(a: Corners, overlapThreshold: real)
    requires WellFormed(a) && Area(a) > 0.0
    ensures Suppresses(a, a, overlapThreshold) <==> overlapThreshold < 1.0
  {
    assert IntersectionArea(a, a) == Area(a);
    assert UnionArea(a, a) == Area(a);
    assert Area(a) / Area(a) == 1.0;
  }

  // ---------------------------------------------------------------------------
  // Rotation and the keypoint triangle

  /** The product dirVR = (v . row0, v . row1) of getTriangle. */
  function Rotate(m: Mat2, v: Point): Point
  {
    Point(v.x * m.m00 + v.y * m.m01, v.x * m.m10 + v.y * m.m11)
  }

  /** r90 sends (x, y) to (y, -x): a quarter turn that keeps the length and is
      orthogonal to its argument. */
  lemma R90QuarterTurn(v: Point)
    ensures Rotate(R90, v) == Point(v.y, -v.x)
    ensures Dot(v, Rotate(R90, v)) == 0.0
    ensures Dot(Rotate(R90, v), Rotate(R90, v)) == Dot(v, v)
  {
  }

  /** dirV = (kp2 - kp0) / length, the normalised principal axis. */
  function Direction(kp0: Point, kp2: Point, length: real): Point
    requires length != 0.0
  {
    Point((kp2.x - kp0.x) / length, (kp2.y - kp0.y) / length)
  }

  /** The triangle getTriangle builds: kp2, kp2 + dist * dirV and
      kp2 + dist * dirVR, for a given value of sqrt(|kp2 - kp0|^2). */
  function KeypointTriangle(kp0: Point, kp2: Point, dist: real, length: real): Triangle
    requires length != 0.0
  {
    var dirV := Direction(kp0, kp2, length);
    var dirVR := Rotate(R90, dirV);
    Triangle(kp2,
             Point(kp2.x + dirV.x * dist, kp2.y + dirV.y * dist),
             Point(kp2.x + dirVR.x * dist, kp2.y + dirVR.y * dist))
  }

  /** The triangle has its right angle at kp2: both legs have the same length,
      they are orthogonal, the first leg points along kp2 - kp0 and the second
      is the first turned by r90. */
  lemma KeypointTriangleShape(kp0: Point, kp2: Point, dist: real, length: real)
    requires length != 0.0
    ensures var t := KeypointTriangle(kp0, kp2, dist, length);
            var leg1, leg2 := Sub(t.p1, t.p0), Sub(t.p2, t.p0);
            && t.p0 == kp2
            && leg2 == Point(leg1.y, -leg1.x)
            && Dot(leg1, leg2) == 0.0
            && Dot(leg1, leg1) == Dot(leg2, leg2)
            && leg1.x * length == (kp2.x - kp0.x) * dist
            && leg1.y * length == (kp2.y - kp0.y) * dist
  {
    var dirV := Direction(kp0, kp2, length);
    R90QuarterTurn(dirV);
    var t := KeypointTriangle(kp0, kp2, dist, length);
    var leg1, leg2 := Sub(t.p1, t.p0), Sub(t.p2, t.p0);
    assert leg1 == Point(dirV.x * dist, dirV.y * dist);
    assert leg2 == Point(dirV.y * dist, -dirV.x * dist);
    assert dirV.x * length == kp2.x - kp0.x;
    assert dirV.y * length == kp2.y - kp0.y;
  }

  /** Every vertex moved by -shift, as the source.forEach loop does. */
  function ShiftTriangle(t: Triangle, shift: Point): (r: Triangle)
    ensures Sub(r.p1, r.p0) == Sub(t.p1, t.p0) && Sub(r.p2, r.p0) == Sub(t.p2, t.p0)
    ensures r.p0 == Sub(t.p0, shift)
  {
    Triangle(Sub(t.p0, shift), Sub(t.p1, shift), Sub(t.p2, shift))
  }
}
