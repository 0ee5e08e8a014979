/** Colour sampling around a point of a bitmap and lookup of the nearest named
    colour (ColorDetector). A bitmap is a two-dimensional array of packed ARGB
    pixels indexed [x, y], so its width is Length0 and its height Length1; the
    colour table is the parsed colors.json, in its iteration order. */
module ColorInfo {

  /** Kotlin's Triple<Int, Int, Int> of red, green and blue. */
  datatype Rgb = Rgb(red: int, green: int, blue: int)

  datatype Channel = Red | Green | Blue

  /** The exceptions the Kotlin code can raise: integer division by zero,
      minBy on an empty map, and indexing a colour list shorter than 3. */
  datatype ColorError = DivisionByZero | NoSuchElement | IndexOutOfBounds

  datatype Result<T> = Success(value: T) | Failure(error: ColorError)

  /** One entry of the colour table: a name and its component list. */
  type ColorEntry = (string, seq<int>)

  /** The default radius of getAverageColor and getAverageColorWithName. */
  const DEFAULT_RADIUS: int := 10

  /** Color.red / Color.green / Color.blue: (pixel >> 16) & 0xFF and so on. */
  function ChannelOf(pixel: bv32, ch: Channel): (v: int)
    ensures 0 <= v <= 255
  {
    var shifted := match ch
      case Red => pixel >> 16
      case Green => pixel >> 8
      case Blue => pixel;
    (shifted & 0xFF) as int
  }

  predicate InBounds(bitmap: array2<bv32>, x: int, y: int)
  {
    0 <= x < bitmap.Length0 && 0 <= y < bitmap.Length1
  }

  // ---------------------------------------------------------------------------
  // Specification of the window sums, over half-open ranges [lo, hi)

  /** Number of in-bounds positions (x, y) with yLo <= y < yHi. */
  function ColumnCount(bitmap: array2<bv32>, x: int, yLo: int, yHi: int): nat
    decreases yHi - yLo
  {
    if yHi <= yLo then 0
    else ColumnCount(bitmap, x, yLo, yHi - 1) + (if InBounds(bitmap, x, yHi - 1) then 1 else 0)
  }

  /** Number of in-bounds positions in [xLo, xHi) x [yLo, yHi). */
  function WindowCount(bitmap: array2<bv32>, xLo: int, xHi: int, yLo: int, yHi: int): nat
    decreases xHi - xLo
  {
    if xHi <= xLo then 0
    else WindowCount(bitmap, xLo, xHi - 1, yLo, yHi) + ColumnCount(bitmap, xHi - 1, yLo, yHi)
  }

  /** Sum of one channel over the in-bounds positions (x, y), yLo <= y < yHi. */
  function ColumnSum(bitmap: array2<bv32>, ch: Channel, x: int, yLo: int, yHi: int): (s: int)
    reads bitmap
    ensures 0 <= s <= 255 * ColumnCount(bitmap, x, yLo, yHi)
    decreases yHi - yLo
  {
    if yHi <= yLo then 0
    else ColumnSum(bitmap, ch, x, yLo, yHi - 1)
         + (if InBounds(bitmap, x, yHi - 1) then ChannelOf(bitmap[x, yHi - 1], ch) else 0)
  }

  /** Sum of one channel over the in-bounds positions of [xLo, xHi) x [yLo, yHi). */
  function WindowSum(bitmap: array2<bv32>, ch: Channel, xLo: int, xHi: int, yLo: int, yHi: int): (s: int)
    reads bitmap
    ensures 0 <= s <= 255 * WindowCount(bitmap, xLo, xHi, yLo, yHi)
    decreases xHi - xLo
  {
    if xHi <= xLo then 0
    else WindowSum(bitmap, ch, xLo, xHi - 1, yLo, yHi) + ColumnSum(bitmap, ch, xHi - 1, yLo, yHi)
  }

  /** Integer average of all three channels over the (2r+1)^2 window centred on
      (centerX, centerY), clipped to the bitmap; division by a zero pixel count
      fails as Kotlin's Int division does. */
  function WindowAverage(bitmap: array2<bv32>, centerX: int, centerY: int, radius: int): Result<Rgb>
    reads bitmap
  {
    var xLo, xHi, yLo, yHi := centerX - radius, centerX + radius + 1, centerY - radius, centerY + radius + 1;
    var count := WindowCount(bitmap, xLo, xHi, yLo, yHi);
    if count == 0 then Failure(DivisionByZero)
    else Success(Rgb(WindowSum(bitmap, Red, xLo, xHi, yLo, yHi) / count,
                     WindowSum(bitmap, Green, xLo, xHi, yLo, yHi) / count,
                     WindowSum(bitmap, Blue, xLo, xHi, yLo, yHi) / count))
  }

  /** Length of the intersection of [lo, hi) with [0, n). */
  function Overlap(lo: int, hi: int, n: nat): nat
  {
    var a := if lo < 0 then 0 else lo;
    var b := if hi < n then hi else n;
    if b <= a then 0 else b - a
  }

  // ---------------------------------------------------------------------------
  // The nested loop of getAverageColor

  /** getAverageColor: accumulates the three channel sums and the pixel count
      over the window, skipping out-of-bounds positions, then divides. */
  method AverageColor(bitmap: array2<bv32>, centerX: int, centerY: int, radius: int := DEFAULT_RADIUS)
    returns (r: Result<Rgb>)
    ensures r == WindowAverage(bitmap, centerX, centerY, radius)
  {
    var xLo, xHi, yLo, yHi := centerX - radius, centerX + radius + 1, centerY - radius, centerY + radius + 1;
    var redSum, greenSum, blueSum, pixelCount := 0, 0, 0, 0;
    var x := xLo;
    while x <= centerX + radius
      invariant xLo <= x <= if xHi < xLo then xLo else xHi
      invariant pixelCount == WindowCount(bitmap, xLo, x, yLo, yHi)
      invariant redSum == WindowSum(bitmap, Red, xLo, x, yLo, yHi)
      invariant greenSum == WindowSum(bitmap, Green, xLo, x, yLo, yHi)
      invariant blueSum == WindowSum(bitmap, Blue, xLo, x, yLo, yHi)
    {
      var y := yLo;
      while y <= centerY + radius
        invariant yLo <= y <= if yHi < yLo then yLo else yHi
        invariant pixelCount == WindowCount(bitmap, xLo, x, yLo, yHi) + ColumnCount(bitmap, x, yLo, y)
        invariant redSum == WindowSum(bitmap, Red, xLo, x, yLo, yHi) + ColumnSum(bitmap, Red, x, yLo, y)
        invariant greenSum == WindowSum(bitmap, Green, xLo, x, yLo, yHi) + ColumnSum(bitmap, Green, x, yLo, y)
        invariant blueSum == WindowSum(bitmap, Blue, xLo, x, yLo, yHi) + ColumnSum(bitmap, Blue, x, yLo, y)
      {
        if x >= 0 && x < bitmap.Length0 && y >= 0 && y < bitmap.Length1 {
          var pixel := bitmap[x, y];
          redSum := redSum + ChannelOf(pixel, Red);
          greenSum := greenSum + ChannelOf(pixel, Green);
          blueSum := blueSum + ChannelOf(pixel, Blue);
          pixelCount := pixelCount + 1;
        }
        y := y + 1;
      }
      x := x + 1;
    }
    if pixelCount == 0 {
      r := Failure(DivisionByZero);
    } else {
      r := Success(Rgb(redSum / pixelCount, greenSum / pixelCount, blueSum / pixelCount));
    }
  }

  // ---------------------------------------------------------------------------
  // Properties of the window average

  /** A column holds exactly its in-range rows when x is inside the bitmap,
      and nothing otherwise. */
  lemma {:induction false} ColumnCountClosedForm(bitmap: array2<bv32>, x: int, yLo: int, yHi: int)
    ensures ColumnCount(bitmap, x, yLo, yHi)
         == if 0 <= x < bitmap.Length0 then Overlap(yLo, yHi, bitmap.Length1) else 0
    decreases yHi - yLo
  {
    if yHi > yLo {
      ColumnCountClosedForm(bitmap, x, yLo, yHi - 1);
    }
  }

  /** The pixel count is the number of window positions inside the bitmap:
      the product of the window's overlaps with [0, width) and [0, height). */
  lemma {:induction false} WindowCountClosedForm(bitmap: array2<bv32>, xLo: int, xHi: int, yLo: int, yHi: int)
    ensures WindowCount(bitmap, xLo, xHi, yLo, yHi)
         == Overlap(xLo, xHi, bitmap.Length0) * Overlap(yLo, yHi, bitmap.Length1)
    decreases xHi - xLo
  {
    if xHi > xLo {
      WindowCountClosedForm(bitmap, xLo, xHi - 1, yLo, yHi);
      ColumnCountClosedForm(bitmap, xHi - 1, yLo, yHi);
      OverlapStep(xLo, xHi, bitmap.Length0);
      var step := if 0 <= xHi - 1 < bitmap.Length0 then 1 else 0;
      Distribute(Overlap(xLo, xHi - 1, bitmap.Length0), step, Overlap(yLo, yHi, bitmap.Length1));
    }
  }

  /** Widening [lo, hi - 1) to [lo, hi) adds position hi - 1 exactly when it lies in [0, n). */
  lemma OverlapStep(lo: int, hi: int, n: nat)
    requires lo < hi
    ensures Overlap(lo, hi, n) == Overlap(lo, hi - 1, n) + if 0 <= hi - 1 < n then 1 else 0
  {
  }

  lemma Distribute(a: int, b: int, c: int)
    ensures (a + b) * c == a * c + b * c
  {
  }

  /** The averaging fails exactly when no window position lies in the bitmap,
      and otherwise every channel is a byte value. */
  lemma AverageInRange(bitmap: array2<bv32>, centerX: int, centerY: int, radius: int)
    ensures WindowAverage(bitmap, centerX, centerY, radius).Failure?
        <==> (Overlap(centerX - radius, centerX + radius + 1, bitmap.Length0)
              * Overlap(centerY - radius, centerY + radius + 1, bitmap.Length1) == 0)
    ensures match WindowAverage(bitmap, centerX, centerY, radius)
      case Success(c) => 0 <= c.red <= 255 && 0 <= c.green <= 255 && 0 <= c.blue <= 255
      case Failure(e) => e == DivisionByZero
  {
    var xLo, xHi, yLo, yHi := centerX - radius, centerX + radius + 1, centerY - radius, centerY + radius + 1;
    WindowCountClosedForm(bitmap, xLo, xHi, yLo, yHi);
    var count := WindowCount(bitmap, xLo, xHi, yLo, yHi);
    if count > 0 {
      QuotientIsByte(WindowSum(bitmap, Red, xLo, xHi, yLo, yHi), count);
      QuotientIsByte(WindowSum(bitmap, Green, xLo, xHi, yLo, yHi), count);
      QuotientIsByte(WindowSum(bitmap, Blue, xLo, xHi, yLo, yHi), count);
    }
  }

  lemma QuotientIsByte(sum: int, count: int)
    requires 0 < count && 0 <= sum <= 255 * count
    ensures 0 <= sum / count <= 255
  {
  }

  // ---------------------------------------------------------------------------
  // Nearest colour name

  /** The square of euclideanDistance: the distance itself is its square
      root, and square roots order the same way (SquareRootsPickSameEntry). */
  function SquaredDistance(c1: Rgb, c2: Rgb): (d: nat)
    ensures d == 0 <==> c1 == c2
  {
    Square(c1.red - c2.red); Square(c1.green - c2.green); Square(c1.blue - c2.blue);
    (c1.red - c2.red) * (c1.red - c2.red)
    + (c1.green - c2.green) * (c1.green - c2.green)
    + (c1.blue - c2.blue) * (c1.blue - c2.blue)
  }

  lemma Square(v: int)
    ensures v * v >= 0
    ensures v * v == 0 <==> v == 0
  {
    if v > 0 {
      assert v * v >= v;
    } else if v < 0 {
      assert v * v == (-v) * (-v) >= -v;
    }
  }

  /** Triple(colorRgb[0], colorRgb[1], colorRgb[2]). */
  function EntryColor(entry: ColorEntry): Rgb
    requires |entry.1| >= 3
  {
    Rgb(entry.1[0], entry.1[1], entry.1[2])
  }

  predicate WellFormed(table: seq<ColorEntry>)
  {
    forall i :: 0 <= i < |table| ==> |table[i].1| >= 3
  }

  /** The distance keys minBy compares, one per table entry. */
  function SquaredDistances(table: seq<ColorEntry>, rgb: Rgb): (keys: seq<real>)
    requires WellFormed(table)
    ensures |keys| == |table|
    ensures forall i :: 0 <= i < |table| ==> keys[i] == SquaredDistance(rgb, EntryColor(table[i])) as real
  {
    seq(|table|, i requires 0 <= i < |table| => SquaredDistance(rgb, EntryColor(table[i])) as real)
  }

  /** minBy's choice: the first position holding the least key (a later key
      replaces the current minimum only when strictly smaller). */
  function FirstMinIndex(keys: seq<real>): (i: nat)
    requires |keys| > 0
    ensures i < |keys|
    ensures forall j :: 0 <= j < |keys| ==> keys[i] <= keys[j]
    ensures forall j :: 0 <= j < i ==> keys[j] > keys[i]
  {
    if |keys| == 1 then 0
    else
      var k := FirstMinIndex(keys[..|keys| - 1]);
      if keys[|keys| - 1] < keys[k] then |keys| - 1 else k
  }

  /** findClosestColor over the table in its iteration order. minBy returns a
      lone entry without evaluating its selector, so a one-entry table never
      reads the component list; with two or more entries every selector call
      reads three components. */
  function ClosestColor(table: seq<ColorEntry>, rgb: Rgb): (r: Result<string>)
    ensures |table| == 0 ==> r == Failure(NoSuchElement)
    ensures |table| == 1 ==> r == Success(table[0].0)
    ensures |table| > 1 ==> (r == Failure(IndexOutOfBounds) <==> !WellFormed(table))
    ensures r.Success? <==> |table| == 1 || (|table| > 1 && WellFormed(table))
    ensures r.Success? && WellFormed(table) ==>
      exists i :: 0 <= i < |table| && table[i].0 == r.value
        && (forall j :: 0 <= j < |table| ==>
              SquaredDistance(rgb, EntryColor(table[i])) <= SquaredDistance(rgb, EntryColor(table[j])))
        && (forall j :: 0 <= j < i ==>
              SquaredDistance(rgb, EntryColor(table[j])) > SquaredDistance(rgb, EntryColor(table[i])))
  {
    if |table| == 0 then Failure(NoSuchElement)
    else if |table| == 1 then Success(table[0].0)
    else if !WellFormed(table) then Failure(IndexOutOfBounds)
    else
      var keys := SquaredDistances(table, rgb);
      var i := FirstMinIndex(keys);
      Success(table[i].0)
  }

  // ---------------------------------------------------------------------------
  // Properties of the distance

  lemma SquaredDistanceSymmetric(c1: Rgb, c2: Rgb)
    ensures SquaredDistance(c1, c2) == SquaredDistance(c2, c1)
  {
  }

  /** Kotlin's sqrt on the non-negative reals, as far as the nearest-colour
      lookup depends on it: zero at zero and strictly increasing. */
  ghost predicate SqrtLike(sqrt: real -> real)
  {
    sqrt(0.0) == 0.0 && forall a, b :: 0.0 <= a < b ==> sqrt(a) < sqrt(b)
  }

  /** euclideanDistance, the square root of the squared distance, is zero
      exactly for equal colours and is symmetric. */
  lemma EuclideanDistanceZero(c1: Rgb, c2: Rgb, sqrt: real -> real)
    requires SqrtLike(sqrt)
    ensures sqrt(SquaredDistance(c1, c2) as real) == 0.0 <==> c1 == c2
    ensures sqrt(SquaredDistance(c1, c2) as real) == sqrt(SquaredDistance(c2, c1) as real)
  {
    SquaredDistanceSymmetric(c1, c2);
    var d := SquaredDistance(c1, c2) as real;
    if d != 0.0 {
      assert sqrt(0.0) < sqrt(d);
    }
  }

  /** Two key sequences that order every pair of positions alike get the same
      minBy choice. */
  lemma {:induction false} FirstMinIndexSameOrder(a: seq<real>, b: seq<real>)
    requires |a| == |b| > 0
    requires forall i, j :: 0 <= i < |a| && 0 <= j < |a| ==> (a[i] < a[j] <==> b[i] < b[j])
    ensures FirstMinIndex(a) == FirstMinIndex(b)
  {
    if |a| > 1 {
      var a', b' := a[..|a| - 1], b[..|b| - 1];
      assert forall i, j :: 0 <= i < |a'| && 0 <= j < |a'| ==> (a'[i] < a'[j] <==> b'[i] < b'[j]) by {
        forall i, j | 0 <= i < |a'| && 0 <= j < |a'| ensures (a'[i] < a'[j] <==> b'[i] < b'[j]) {
          assert a'[i] == a[i] && a'[j] == a[j] && b'[i] == b[i] && b'[j] == b[j];
        }
      }
      FirstMinIndexSameOrder(a', b');
    }
  }

  /** Comparing the Euclidean distances (the square roots) picks the same entry
      as comparing the squared distances, so ClosestColor is findClosestColor. */
  lemma SquareRootsPickSameEntry(table: seq<ColorEntry>, rgb: Rgb, sqrt: real -> real)
    requires |table| > 0 && WellFormed(table) && SqrtLike(sqrt)
    ensures var keys := SquaredDistances(table, rgb);
            ClosestColor(table, rgb) == Success(table[FirstMinIndex(seq(|keys|, i requires 0 <= i < |keys| => sqrt(keys[i])))].0)
  {
    var keys := SquaredDistances(table, rgb);
    var distances := seq(|keys|, i requires 0 <= i < |keys| => sqrt(keys[i]));
    forall i, j | 0 <= i < |keys| && 0 <= j < |keys|
      ensures distances[i] < distances[j] <==> keys[i] < keys[j]
    {
      assert keys[i] >= 0.0 && keys[j] >= 0.0;
      if keys[j] < keys[i] {
        assert sqrt(keys[j]) < sqrt(keys[i]);
      }
    }
    FirstMinIndexSameOrder(distances, keys);
  }

  // ---------------------------------------------------------------------------
  // getAverageColorWithName

  /** The average colour of the window together with the name closest to that
      same average; a failure of either step is passed on. */
  method AverageColorWithName(bitmap: array2<bv32>, table: seq<ColorEntry>, centerX: int, centerY: int,
                              radius: int := DEFAULT_RADIUS)
    returns (r: Result<(Rgb, string)>)
    ensures match WindowAverage(bitmap, centerX, centerY, radius)
      case Failure(e) => r == Failure(e)
      case Success(avg) =>
        match ClosestColor(table, avg)
        case Failure(e) => r == Failure(e)
        case Success(name) => r == Success((avg, name))
  {
    var avgColor := AverageColor(bitmap, centerX, centerY, radius);
    if avgColor.Failure? {
      return Failure(avgColor.error);
    }
    var colorName := ClosestColor(table, avgColor.value);
    if colorName.Failure? {
      return Failure(colorName.error);
    }
    r := Success((avgColor.value, colorName.value));
  }
}
