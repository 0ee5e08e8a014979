# Palette: palm detection post-processing, colour lookup and file paths

This project models three parts of the Palette Android app in Dafny and proves properties of them:

- **PalmModel.detect after inference.** This is the part from the raw palm-detector outputs to the reported box:
  - The sigmoid filter keeps every prediction whose probability is above 0.5.
  - Each candidate's box centre is moved to its anchor.
  - Greedy non-maximum suppression runs over the corner-form boxes. It uses a stable descending sort by probability, an `active` flag array and the clamped intersection-over-union test.
  - The seven keypoints of the best survivor are decoded.
  - The keypoint triangle of `getTriangle` is built (normalised axis, `r90` rotation) and then moved by the box shift.
  - The affine map onto the canonical triangle and back onto the canonical 256 x 256 box comes next.
  - The result is rescaled into a `BoundingBox`.
- **ColorDetector.** It averages the colour over a clipped square window of a bitmap. It then finds the closest named colour in the colour table, as `minBy` over the Euclidean distance.
- **FileUtils.** It builds the masked-image and processed-image paths, and takes the file name of a path.

Model layout:

- **`PalmGeometry`:** points, box formats, the intersection area, the suppression test, `r90` and the keypoint triangle.
- **`PalmDecoder`:** probabilities, the detection mask, candidate moving and keypoint extraction.
- **`PalmSuppression`:** the sort, the greedy specification and `nonMaxSuppression`.
- **`PalmModel`:** `getTriangle`, the vertex shift, the final box and `detect`.
- **`ColorInfo`** and **`FileUtils`** model the other two files.

The code works on arrays and loops in four places. Each one is an imperative method proved against a specification function:

- the `active` array of `nonMaxSuppression`;
- the keypoint loop;
- the `FloatArray`s that `getTriangle` allocates and that `source.forEach` shifts in place;
- the nested window loop of `getAverageColor`.

Dafny `real` stands in for Kotlin `Float`. Three calls are left unspecified and passed in as function parameters:

- the logistic function `sigmoid`;
- `sqrt`;
- the `android.graphics.Matrix` chain `setPolyToPoly`, `invert`, `mapPoints`.

Properties that rely on `sqrt` assume only what is stated (monotone, zero at zero).

Places where the model makes the code's behaviour explicit:

- **Coincident keypoints 0 and 2.** `getTriangle` divides by a zero length, and the triangle gets NaN vertices. What the Matrix chain then makes of them is not modelled. The model returns `Failure(DegenerateAxis)` instead.
- **Zero union in the IoU test.** The model follows the Float semantics of `intersection / union > overlapThreshold`. A positive intersection over a zero union is +Infinity, which suppresses. A zero intersection over a zero union is NaN, which does not.
- **`getAverageColor` with no pixel in the bitmap.** It divides by a zero `pixelCount`, which Kotlin raises as an exception. The model returns `Failure(DivisionByZero)`.
- **`findClosestColor`.** On an empty colour table it returns `Failure(NoSuchElement)`. A table with a single entry returns that entry's name, since `minBy` does not call its selector on a lone element. With two or more entries, an entry with fewer than three components gives `Failure(IndexOutOfBounds)`.
- **Fewer than six predictions.** The debug loop `for (i in 0..5)` indexes predictions 0 to 5 before any filtering, so a shorter output throws. The model returns `Failure(TooFewPredictions)`.
- **`selectedIndices.isEmpty()`.** The code checks this, and the model keeps the branch. `PalmSuppression.KeptIndicesStartAtMaximum` shows it cannot happen once a candidate exists.
- **Constructor and call defaults.** `boxEnlarge` (1.5), `boxShift` (0.2), the `dist` of `getTriangle` (1), the `overlapThreshold` of `nonMaxSuppression` (0.3) and the `radius` of `getAverageColor` (10) are parameters with the code's default values.
- **Input sizes.** The code uses `inputSize = 192`, while the canonical triangle and box constants live in a 256-pixel frame. Both constants appear as written.


## Model

| member | source | states |
|---|---|---|
| FileUtils.LastIndexOf | app/src/main/java/com/plcoding/landmarkrecognitiontensorflow/domain/FileUtils.kt:21 | the result is -1 or a position holding the character, and no later position holds it |
| FileUtils.FileNameFromPath | app/src/main/java/com/plcoding/landmarkrecognitiontensorflow/domain/FileUtils.kt:20-22 | getFileNameFromPath returns a suffix of the path |
| FileUtils.NoneAfter | app/src/main/java/com/plcoding/landmarkrecognitiontensorflow/domain/FileUtils.kt:21 | no character after the last occurrence of c is c |
| FileUtils.FileNameHasNoSlash | app/src/main/java/com/plcoding/landmarkrecognitiontensorflow/domain/FileUtils.kt:20-22 | the file name taken from any path contains no '/' |
| FileUtils.FileNameOfPlainName | app/src/main/java/com/plcoding/landmarkrecognitiontensorflow/domain/FileUtils.kt:20-22 | a path with no '/' is returned whole, since lastIndexOf gives -1 |
| FileUtils.PathSplitsAtFileName | app/src/main/java/com/plcoding/landmarkrecognitiontensorflow/domain/FileUtils.kt:20-22 | the path is a directory part followed by the file name, and the directory part is empty or ends in '/' |
| FileUtils.FileNameIdempotent | app/src/main/java/com/plcoding/landmarkrecognitiontensorflow/domain/FileUtils.kt:20-22 | taking the file name of a file name changes nothing |
| FileUtils.LastIndexOfAfterSeparator | app/src/main/java/com/plcoding/landmarkrecognitiontensorflow/domain/FileUtils.kt:21 | in a + c + b with no c in b, the last c is the one at position the length of a |
| FileUtils.LongToString | app/src/main/java/com/plcoding/landmarkrecognitiontensorflow/domain/FileUtils.kt:11-12 | the timestamp in the template is a non-empty string, with a leading '-' exactly for a negative number and digits everywhere else |
| FileUtils.LongToStringHasNoSlash | app/src/main/java/com/plcoding/landmarkrecognitiontensorflow/domain/FileUtils.kt:11-12 | a rendered timestamp contains no '/' |
| FileUtils.MaskedImagePath | app/src/main/java/com/plcoding/landmarkrecognitiontensorflow/domain/FileUtils.kt:10-13 | the masked-image path lies under filesDir + "/processed_data/" |
| FileUtils.ProcessedImagePath | app/src/main/java/com/plcoding/landmarkrecognitiontensorflow/domain/FileUtils.kt:15-18 | the processed-image path lies under filesDir + "/processed_data/" |
| FileUtils.GeneratedPathRoundTrip | app/src/main/java/com/plcoding/landmarkrecognitiontensorflow/domain/FileUtils.kt:10-22 | for any files directory and a prefix without '/', the file name of the generated path is prefix + timestamp + ".png" |
| FileUtils.MaskedImagePathRoundTrip | app/src/main/java/com/plcoding/landmarkrecognitiontensorflow/domain/FileUtils.kt:7-13 | the file name of generateMaskedImagePath is "masked_palm_" + timestamp + ".png" |
| FileUtils.ProcessedImagePathRoundTrip | app/src/main/java/com/plcoding/landmarkrecognitiontensorflow/domain/FileUtils.kt:8-18 | the file name of generateProcessedImagePath is "processed_" + timestamp + ".png" |
| ColorInfo.ChannelOf | app/src/main/java/com/plcoding/landmarkrecognitiontensorflow/ColorInfo.kt:35-37 | Color.red, green and blue of an ARGB pixel are bytes, 0 to 255 |
| ColorInfo.InBounds | app/src/main/java/com/plcoding/landmarkrecognitiontensorflow/ColorInfo.kt:33 | defines the bounds test of the window loop: 0 <= x < width and 0 <= y < height; only pixels it admits enter the sums and pixelCount |
| ColorInfo.ColumnSum | app/src/main/java/com/plcoding/landmarkrecognitiontensorflow/ColorInfo.kt:32-39 | a column's channel sum is at most 255 times its in-bounds pixel count |
| ColorInfo.WindowSum | app/src/main/java/com/plcoding/landmarkrecognitiontensorflow/ColorInfo.kt:31-41 | the window's channel sum is at most 255 times its in-bounds pixel count |
| ColorInfo.WindowAverage | app/src/main/java/com/plcoding/landmarkrecognitiontensorflow/ColorInfo.kt:25-48 | defines getAverageColor: the integer channel sums over the window clipped to the bitmap, divided by the in-bounds pixel count, and DivisionByZero for a zero count; its properties are AverageInRange and WindowCountClosedForm |
| ColorInfo.AverageColor | app/src/main/java/com/plcoding/landmarkrecognitiontensorflow/ColorInfo.kt:25-48 | the nested loop computes the clipped-window integer average of each channel, and fails with DivisionByZero when no pixel is in bounds |
| ColorInfo.ColumnCountClosedForm | app/src/main/java/com/plcoding/landmarkrecognitiontensorflow/ColorInfo.kt:32-33 | a column counts the rows of the window inside the bitmap height when x is inside the width, and none otherwise |
| ColorInfo.WindowCountClosedForm | app/src/main/java/com/plcoding/landmarkrecognitiontensorflow/ColorInfo.kt:31-41 | pixelCount is the product of the window's overlaps with [0, width) and [0, height) |
| ColorInfo.OverlapStep | app/src/main/java/com/plcoding/landmarkrecognitiontensorflow/ColorInfo.kt:31-33 | widening the x range by one position adds one in-bounds column exactly when that column is inside the bitmap |
| ColorInfo.AverageInRange | app/src/main/java/com/plcoding/landmarkrecognitiontensorflow/ColorInfo.kt:43-47 | the averaging fails exactly when the window misses the bitmap, and otherwise every channel of the result is a byte |
| ColorInfo.QuotientIsByte | app/src/main/java/com/plcoding/landmarkrecognitiontensorflow/ColorInfo.kt:44-46 | a sum of at most 255 per pixel divided by the pixel count is a byte |
| ColorInfo.SquaredDistance | app/src/main/java/com/plcoding/landmarkrecognitiontensorflow/ColorInfo.kt:59-65 | the squared distance is zero exactly for equal colours |
| ColorInfo.SquaredDistanceSymmetric | app/src/main/java/com/plcoding/landmarkrecognitiontensorflow/ColorInfo.kt:59-65 | the distance does not depend on the order of its arguments |
| ColorInfo.EuclideanDistanceZero | app/src/main/java/com/plcoding/landmarkrecognitiontensorflow/ColorInfo.kt:59-65 | for a monotone sqrt with sqrt(0) = 0, euclideanDistance is zero exactly for equal colours, and is symmetric |
| ColorInfo.SquaredDistances | app/src/main/java/com/plcoding/landmarkrecognitiontensorflow/ColorInfo.kt:51-55 | one distance key per table entry, computed from its first three components |
| ColorInfo.EntryColor | app/src/main/java/com/plcoding/landmarkrecognitiontensorflow/ColorInfo.kt:54 | defines the colour of a table entry as its first three components, for an entry that has them; ClosestColor fails with IndexOutOfBounds where one is missing |
| ColorInfo.FirstMinIndex | app/src/main/java/com/plcoding/landmarkrecognitiontensorflow/ColorInfo.kt:51 | minBy picks a position whose key is least, and every earlier key is strictly larger |
| ColorInfo.ClosestColor | app/src/main/java/com/plcoding/landmarkrecognitiontensorflow/ColorInfo.kt:50-57 | fails with NoSuchElement exactly on an empty table; a one-entry table gives its name without reading components; with two or more entries it fails with IndexOutOfBounds exactly when some entry has fewer than three components, and otherwise returns the name of the first entry at least distance |
| ColorInfo.FirstMinIndexSameOrder | app/src/main/java/com/plcoding/landmarkrecognitiontensorflow/ColorInfo.kt:51 | key sequences that order every pair alike get the same minBy choice |
| ColorInfo.SquareRootsPickSameEntry | app/src/main/java/com/plcoding/landmarkrecognitiontensorflow/ColorInfo.kt:50-65 | minBy over the Euclidean distances picks the same entry as minBy over the squared distances |
| ColorInfo.AverageColorWithName | app/src/main/java/com/plcoding/landmarkrecognitiontensorflow/ColorInfo.kt:19-23 | returns the window average paired with the closest name to that same average, passing on the failure of either step |
| PalmGeometry.Max | app/src/main/java/com/plcoding/landmarkrecognitiontensorflow/domain/PalmModel.kt:422-427 | maxOf is an upper bound of both arguments and equals one of them |
| PalmGeometry.Min | app/src/main/java/com/plcoding/landmarkrecognitiontensorflow/domain/PalmModel.kt:424-425 | minOf is a lower bound of both arguments and equals one of them |
| PalmGeometry.ToCorners | app/src/main/java/com/plcoding/landmarkrecognitiontensorflow/domain/PalmModel.kt:374-381 | the corner box has the centre box's width and height, and its midpoint is the centre |
| PalmGeometry.Area | app/src/main/java/com/plcoding/landmarkrecognitiontensorflow/domain/PalmModel.kt:406-407 | defines areaI and areaJ, (x2 - x1) * (y2 - y1) of a corner box; it is the intersection of a box with itself (IntersectionArea) and decides SelfOverlap |
| PalmGeometry.IntersectionArea | app/src/main/java/com/plcoding/landmarkrecognitiontensorflow/domain/PalmModel.kt:418-428 | the clamped intersection is never negative, is zero for boxes apart along an axis, and is the area for a box with itself |
| PalmGeometry.IntersectionSymmetric | app/src/main/java/com/plcoding/landmarkrecognitiontensorflow/domain/PalmModel.kt:418-428 | the intersection does not depend on the order of the boxes |
| PalmGeometry.UnionArea | app/src/main/java/com/plcoding/landmarkrecognitiontensorflow/domain/PalmModel.kt:408 | defines union as areaI + areaJ - intersection; its symmetry follows from IntersectionSymmetric and is used by SuppressesSymmetric |
| PalmGeometry.Suppresses | app/src/main/java/com/plcoding/landmarkrecognitiontensorflow/domain/PalmModel.kt:401-410 | defines the inner-loop test: IoU above the threshold, and where the union is zero, a positive intersection suppresses (Float +Infinity) and a zero one does not (NaN); its properties are the three lemmas below |
| PalmGeometry.SuppressesSymmetric | app/src/main/java/com/plcoding/landmarkrecognitiontensorflow/domain/PalmModel.kt:401-410 | the IoU test gives the same answer with the boxes swapped |
| PalmGeometry.SeparatedNeverSuppress | app/src/main/java/com/plcoding/landmarkrecognitiontensorflow/domain/PalmModel.kt:401-410 | boxes apart along an axis never suppress each other under a non-negative threshold |
| PalmGeometry.SelfOverlap | app/src/main/java/com/plcoding/landmarkrecognitiontensorflow/domain/PalmModel.kt:401-410 | a box of positive area suppresses its own copy exactly when the threshold is below 1 |
| PalmGeometry.R90QuarterTurn | app/src/main/java/com/plcoding/landmarkrecognitiontensorflow/domain/PalmModel.kt:107-110 | r90 sends (x, y) to (y, -x): orthogonal to its argument and of the same length |
| PalmGeometry.Rotate | app/src/main/java/com/plcoding/landmarkrecognitiontensorflow/domain/PalmModel.kt:120-124 | defines the dirVR product of a vector with the rows of a 2 x 2 matrix; R90QuarterTurn states what it does with r90 |
| PalmGeometry.Direction | app/src/main/java/com/plcoding/landmarkrecognitiontensorflow/domain/PalmModel.kt:113-118 | defines dirV, kp2 - kp0 divided componentwise by a non-zero length; KeypointTriangleShape states that the first leg lies along it |
| PalmGeometry.KeypointTriangle | app/src/main/java/com/plcoding/landmarkrecognitiontensorflow/domain/PalmModel.kt:112-131 | defines the getTriangle triangle kp2, kp2 + dist * dirV, kp2 + dist * dirVR for a given length of kp2 - kp0; its shape is KeypointTriangleShape |
| PalmGeometry.KeypointTriangleShape | app/src/main/java/com/plcoding/landmarkrecognitiontensorflow/domain/PalmModel.kt:112-131 | the triangle has its right angle at kp2, with two equal orthogonal legs; the first leg lies along kp2 - kp0 scaled by dist / length, and the second is the first turned by r90 |
| PalmGeometry.ShiftTriangle | app/src/main/java/com/plcoding/landmarkrecognitiontensorflow/domain/PalmModel.kt:236-239 | shifting moves the first vertex by -shift and leaves both legs unchanged |
| PalmDecoder.Probabilities | app/src/main/java/com/plcoding/landmarkrecognitiontensorflow/domain/PalmModel.kt:184 | one probability per logit, the sigmoid of that logit |
| PalmDecoder.SelectPrefix | app/src/main/java/com/plcoding/landmarkrecognitiontensorflow/domain/PalmModel.kt:185-186 | the mask of a prefix ascends strictly, and holds an index exactly when its probability exceeds 0.5 |
| PalmDecoder.SelectCandidates | app/src/main/java/com/plcoding/landmarkrecognitiontensorflow/domain/PalmModel.kt:185-186 | defines detectionMask as the filtered index list; its properties are SelectCandidatesExact and CandidateMaximumIsGlobal |
| PalmDecoder.SelectCandidatesExact | app/src/main/java/com/plcoding/landmarkrecognitiontensorflow/domain/PalmModel.kt:185-188 | the mask holds each index with probability above 0.5 exactly once, in ascending order, and is empty exactly when no probability exceeds 0.5 |
| PalmDecoder.CandidateMaximumIsGlobal | app/src/main/java/com/plcoding/landmarkrecognitiontensorflow/domain/PalmModel.kt:185-192 | a candidate with the highest probability among the candidates is above 0.5 and has the highest probability of all predictions |
| PalmDecoder.Gather | app/src/main/java/com/plcoding/landmarkrecognitiontensorflow/domain/PalmModel.kt:190-192 | the gathered list runs parallel to the mask |
| PalmDecoder.MoveCandidate | app/src/main/java/com/plcoding/landmarkrecognitiontensorflow/domain/PalmModel.kt:195-202 | defines a moved candidate: centre offset by anchor * inputSize, width and height kept; KeypointsOffsetFromBareAnchor relates it to the keypoints |
| PalmDecoder.Keypoint | app/src/main/java/com/plcoding/landmarkrecognitiontensorflow/domain/PalmModel.kt:214-224 | defines keypoint k as centerNoOffset plus values 4 + 2k and 5 + 2k; ExtractKeypoints is proved against it |
| PalmDecoder.KeypointsOffsetFromBareAnchor | app/src/main/java/com/plcoding/landmarkrecognitiontensorflow/domain/PalmModel.kt:195-225 | a keypoint sits at its regression offset from the anchor position, not from the moved box centre; the moved box keeps the regression's width and height |
| PalmDecoder.ExtractKeypoints | app/src/main/java/com/plcoding/landmarkrecognitiontensorflow/domain/PalmModel.kt:214-225 | seven new distinct two-element arrays, keypoint k holding anchor * inputSize plus values 4 + 2k and 5 + 2k |
| PalmSuppression.InsertByRank | app/src/main/java/com/plcoding/landmarkrecognitiontensorflow/domain/PalmModel.kt:384 | insertion adds exactly the new index to the order |
| PalmSuppression.InsertByRankSorted | app/src/main/java/com/plcoding/landmarkrecognitiontensorflow/domain/PalmModel.kt:384 | inserting a new index keeps the order sorted by descending probability, ties by index |
| PalmSuppression.RankPrefix | app/src/main/java/com/plcoding/landmarkrecognitiontensorflow/domain/PalmModel.kt:384 | the first n indices come out rank-sorted, each exactly once |
| PalmSuppression.RankByProbability | app/src/main/java/com/plcoding/landmarkrecognitiontensorflow/domain/PalmModel.kt:384 | defines the sortedByDescending order of the indices; RankByProbabilityIsStableSort states it is a stable sort |
| PalmSuppression.RankByProbabilityIsStableSort | app/src/main/java/com/plcoding/landmarkrecognitiontensorflow/domain/PalmModel.kt:384 | sortedByDescending yields a permutation of the indices with non-increasing probabilities, equal probabilities in ascending index order |
| PalmSuppression.GreedyKeep | app/src/main/java/com/plcoding/landmarkrecognitiontensorflow/domain/PalmModel.kt:388-414 | the kept rank positions among the first m ascend strictly and lie below m |
| PalmSuppression.SuppressedByExtended | app/src/main/java/com/plcoding/landmarkrecognitiontensorflow/domain/PalmModel.kt:395-412 | keeping one more position suppresses j exactly when j was already suppressed or the new position suppresses it |
| PalmSuppression.GreedyKeepCovers | app/src/main/java/com/plcoding/landmarkrecognitiontensorflow/domain/PalmModel.kt:388-414 | every position is kept, or is suppressed by a kept position before it |
| PalmSuppression.GreedyKeepPairwise | app/src/main/java/com/plcoding/landmarkrecognitiontensorflow/domain/PalmModel.kt:388-414 | no kept position suppresses a later kept position |
| PalmSuppression.GreedyKeepStartsAtZero | app/src/main/java/com/plcoding/landmarkrecognitiontensorflow/domain/PalmModel.kt:386-391 | the first rank position is always kept |
| PalmSuppression.AllCorners | app/src/main/java/com/plcoding/landmarkrecognitiontensorflow/domain/PalmModel.kt:374-381 | one corner box per centre box, in the same order |
| PalmSuppression.RankedCorners | app/src/main/java/com/plcoding/landmarkrecognitiontensorflow/domain/PalmModel.kt:392-398 | position k holds the corners of the box ranked k-th |
| PalmSuppression.Positions | app/src/main/java/com/plcoding/landmarkrecognitiontensorflow/domain/PalmModel.kt:391 | each kept rank position maps to its original index |
| PalmSuppression.ExceedsThreshold | app/src/main/java/com/plcoding/landmarkrecognitiontensorflow/domain/PalmModel.kt:401-410 | the IoU comparison of the inner loop, with areas and union as written, is the suppression test |
| PalmSuppression.ActiveAt | app/src/main/java/com/plcoding/landmarkrecognitiontensorflow/domain/PalmModel.kt:388-391 | a position's active flag says whether it is unsuppressed, and decides the next greedy step |
| PalmSuppression.DeactivateOverlapping | app/src/main/java/com/plcoding/landmarkrecognitiontensorflow/domain/PalmModel.kt:395-413 | after the inner loop, the later flags say which positions the kept list extended by i does not suppress, and the flags up to i are unchanged |
| PalmSuppression.VisitPosition | app/src/main/java/com/plcoding/landmarkrecognitiontensorflow/domain/PalmModel.kt:388-414 | one outer step extends keep, the kept positions and the flags to the greedy choice for the first i + 1 positions, leaving the flags up to i unchanged |
| PalmSuppression.GreedyPass | app/src/main/java/com/plcoding/landmarkrecognitiontensorflow/domain/PalmModel.kt:385-416 | the loop with the active array returns exactly the original indices of the greedily kept rank positions |
| PalmSuppression.NonMaxSuppression | app/src/main/java/com/plcoding/landmarkrecognitiontensorflow/domain/PalmModel.kt:368-417 | nonMaxSuppression returns the kept list of the specification |
| PalmSuppression.KeptIndices | app/src/main/java/com/plcoding/landmarkrecognitiontensorflow/domain/PalmModel.kt:368-417 | defines the nonMaxSuppression result: rank the indices, take the corner boxes in rank order, keep greedily, and map back to original indices; its properties are the KeptIndices lemmas below |
| PalmSuppression.KeptIndicesOrdered | app/src/main/java/com/plcoding/landmarkrecognitiontensorflow/domain/PalmModel.kt:384-416 | the kept indices are distinct indices of the probabilities, in non-increasing probability, ties by index |
| PalmSuppression.KeptIndicesStartAtMaximum | app/src/main/java/com/plcoding/landmarkrecognitiontensorflow/domain/PalmModel.kt:384-391 | a non-empty input keeps something, and the first kept index has the highest probability (the earliest on ties) |
| PalmSuppression.KeptIndicesOfNothing | app/src/main/java/com/plcoding/landmarkrecognitiontensorflow/domain/PalmModel.kt:384-416 | no probabilities, nothing kept |
| PalmSuppression.KeptIndicesCover | app/src/main/java/com/plcoding/landmarkrecognitiontensorflow/domain/PalmModel.kt:388-414 | every index is kept, or is suppressed by a kept index that ranks before it |
| PalmSuppression.KeptIndicesPairwise | app/src/main/java/com/plcoding/landmarkrecognitiontensorflow/domain/PalmModel.kt:388-414 | no two kept boxes suppress each other, and where their union is non-zero their IoU is at most the threshold |
| PalmModel.GetTriangle | app/src/main/java/com/plcoding/landmarkrecognitiontensorflow/domain/PalmModel.kt:112-131 | returns kp2 itself and two new arrays, together forming the keypoint triangle for length sqrt(\|kp2 - kp0\|^2) |
| PalmModel.AxisSquared | app/src/main/java/com/plcoding/landmarkrecognitiontensorflow/domain/PalmModel.kt:114-116 | defines the argument of sqrt, the squared length of kp2 - kp0; with sqrt(0) = 0 it is what makes CoincidentKeypointsFail fail |
| PalmModel.ShiftVertices | app/src/main/java/com/plcoding/landmarkrecognitiontensorflow/domain/PalmModel.kt:236-239 | each vertex array is moved by -shift in place |
| PalmModel.Scale | app/src/main/java/com/plcoding/landmarkrecognitiontensorflow/domain/PalmModel.kt:258 | scale times inputSize reaches both bitmap sides and equals one of them, so it is the larger side |
| PalmModel.ScaleCoversBothSides | app/src/main/java/com/plcoding/landmarkrecognitiontensorflow/domain/PalmModel.kt:258 | the scale is the same for a portrait and a landscape bitmap, brings inputSize up to both sides, and is positive for positive sides |
| PalmModel.FinalBox | app/src/main/java/com/plcoding/landmarkrecognitiontensorflow/domain/PalmModel.kt:259-265 | defines the BoundingBox read off the mapped corners: origin at the first corner, width to the second, height from the second to the third, all scaled |
| PalmModel.FinalBoxOfAxisAlignedQuad | app/src/main/java/com/plcoding/landmarkrecognitiontensorflow/domain/PalmModel.kt:259-265 | for a quad whose first edge is horizontal, the box spans [c0.x, c1.x] by [c0.y, c2.y] scaled, carries the confidence, and has non-negative sides when the corners are in order and the scale is positive |
| PalmModel.FinalBoxOfSimilarity | app/src/main/java/com/plcoding/landmarkrecognitiontensorflow/domain/PalmModel.kt:99-104 | if the inverse map is a scaling by k plus a translation t, the box is the scaled 256k x 256k square at t |
| PalmModel.Shift | app/src/main/java/com/plcoding/landmarkrecognitiontensorflow/domain/PalmModel.kt:232-235 | defines the box shift, boxShift times kp0 - kp2; ShiftTriangle and ShiftVertices use it |
| PalmModel.BoxOf | app/src/main/java/com/plcoding/landmarkrecognitiontensorflow/domain/PalmModel.kt:209-265 | defines the box of the selected detection: keypoints 0 and 2, side, getTriangle, shift, the affine map and FinalBox, with DegenerateAxis for a zero axis length; SelectedBox is proved against it |
| PalmModel.MovedCandidates | app/src/main/java/com/plcoding/landmarkrecognitiontensorflow/domain/PalmModel.kt:195-203 | each candidate box is its regression box with the centre moved by anchor * inputSize |
| PalmModel.SelectedBox | app/src/main/java/com/plcoding/landmarkrecognitiontensorflow/domain/PalmModel.kt:209-265 | the imperative keypoint, triangle, shift and box steps compute the specified box of the selected detection |
| PalmModel.Detection | app/src/main/java/com/plcoding/landmarkrecognitiontensorflow/domain/PalmModel.kt:155-265 | defines detect after inference: TooFewPredictions for fewer than six predictions, otherwise PostProcess; Detect is proved against it |
| PalmModel.PostProcess | app/src/main/java/com/plcoding/landmarkrecognitiontensorflow/domain/PalmModel.kt:184-265 | defines filtering, moving, suppression and the box of the first kept candidate |
| PalmModel.Detect | app/src/main/java/com/plcoding/landmarkrecognitiontensorflow/domain/PalmModel.kt:184-265 | detect after inference returns the specified list of boxes |
| PalmModel.EmptyExactlyWithoutCandidates | app/src/main/java/com/plcoding/landmarkrecognitiontensorflow/domain/PalmModel.kt:162-206 | detect fails exactly on fewer than six predictions, returns no box exactly when there are six or more and no probability exceeds 0.5, and never returns more than one box |
| PalmModel.PostProcessEmptyExactlyWithoutCandidates | app/src/main/java/com/plcoding/landmarkrecognitiontensorflow/domain/PalmModel.kt:184-206 | post-processing never reports too few predictions, returns no box exactly when no probability exceeds 0.5, and at most one box |
| PalmModel.ConfidenceIsHighestProbability | app/src/main/java/com/plcoding/landmarkrecognitiontensorflow/domain/PalmModel.kt:205-264 | the returned box's confidence is above 0.5, is the highest probability of all predictions, and is some prediction's probability |
| PalmModel.PostProcessConfidence | app/src/main/java/com/plcoding/landmarkrecognitiontensorflow/domain/PalmModel.kt:205-264 | a box from post-processing carries a confidence above 0.5 that is the highest probability of all predictions |
| PalmModel.CoincidentKeypointsFail | app/src/main/java/com/plcoding/landmarkrecognitiontensorflow/domain/PalmModel.kt:112-118 | when keypoints 0 and 2 coincide and sqrt(0) = 0, the box cannot be built |

## Left out

- The rest of PalmModel is not part of this model, because it is I/O, inference or drawing. This covers preprocessImage (bitmap scaling, padding and tensor filling), the TensorFlow Lite interpreter, loadAnchors (reading the anchor CSV), transformBox's own buffer copy, createMaskedBitmap, drawBoundingBoxes and saving images.
- MainActivity, ImageProcessor and FingertipModel are not part of this model.
- Float arithmetic is modelled as exact real arithmetic, with no rounding, infinities or NaN. The one exception is the zero-union case of the IoU test, where the Float outcome is written out.
- sigmoid, sqrt and the Matrix `setPolyToPoly`/`invert`/`mapPoints` chain are parameters, because they are library calls whose numerics are not modelled. No property is claimed about what the affine map returns.
- PalmGeometry.KeypointTriangleShape: does not state that dirV has unit length, because sqrt is a parameter. It does state the equal, orthogonal legs and the direction along kp2 - kp0.
- PalmModel.BoxOf: where the Kotlin code divides by a zero axis length, the triangle gets NaN vertices; what the Matrix chain then returns is not modelled, and the model returns Failure(DegenerateAxis).
- PalmModel.Detect: requires the output shapes the detector produces: outReg and outClf of equal length, at least that many anchors, and at least 18 values per regression row. This is stronger than the code needs, which reads anchors and values 0 to 3 only at candidate indices and values 4 to 17 only for the selected row; inputs outside these shapes are not modelled.
- PalmModel.Detection: the Log.d output of the debug loop and the value-range block are not modelled. The range block only throws on an empty list, which the six-prediction check and the row shapes rule out.
- PalmDecoder.Anchor: only the first two values of an anchor row are read by detect, so the anchor is modelled as those two.
- ColorInfo.AverageColor: does not model 32-bit Int overflow of the channel sums; the sums are unbounded integers. The only caller, getAverageColorWithName from FingertipModel.kt:110, passes radius 10, a window of at most 441 pixels, so each sum stays at most 112455. For windows of more than about 8.4 million in-bounds pixels the Int sums wrap, which the model does not capture.
- ColorInfo.ClosestColor: the colour table is a sequence in the iteration order of the parsed map. Loading colors.json with Gson is not modelled. The square root is left out of the key, and SquareRootsPickSameEntry shows that this picks the same entry.
- FileUtils: `System.currentTimeMillis()` and `context.filesDir` are parameters, because they are a clock and the Android context.
- PalmDecoder.ExtractKeypoints, PalmModel.GetTriangle, PalmModel.ShiftVertices, PalmSuppression.DeactivateOverlapping and PalmSuppression.VisitPosition: their contracts speak of fresh arrays or of the state before the call. They tie the imperative steps to the specification functions, whose own properties are the lemmas above.
