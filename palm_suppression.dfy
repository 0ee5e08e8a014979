/** Greedy non-maximum suppression over the moved candidate boxes: a stable
    sort of the indices by descending probability, then a pass that keeps each
    still-active box and deactivates every later box it overlaps too much. */
module PalmSuppression {
  import opened PalmGeometry

  /** The default overlapThreshold of nonMaxSuppression. */
  const DEFAULT_OVERLAP_THRESHOLD: real := 0.3

  // ---------------------------------------------------------------------------
  // The stable descending sort

  /** Index i comes before index j in sortedByDescending: a higher probability
      first, and on equal probabilities the original order, since the sort is
      stable. */
  predicate RanksBefore(p: seq<real>, i: nat, j: nat)
    requires i < |p| && j < |p|
  {
    p[i] > p[j] || (p[i] == p[j] && i < j)
  }

  predicate IndicesBelow(s: seq<nat>, n: nat)
  {
    forall k :: 0 <= k < |s| ==> s[k] < n
  }

  predicate RankSorted(p: seq<real>, s: seq<nat>)
    requires IndicesBelow(s, |p|)
  {
    forall a, b :: 0 <= a < b < |s| ==> RanksBefore(p, s[a], s[b])
  }

  /** Inserts x into a rank-sorted order after every index that ranks before it. */
  function InsertByRank(p: seq<real>, order: seq<nat>, x: nat): (r: seq<nat>)
    requires x < |p| && IndicesBelow(order, |p|) && RankSorted(p, order)
    ensures forall y :: y in r <==> y in order || y == x
    ensures |r| == |order| + 1 && IndicesBelow(r, |p|)
  {
    if |order| == 0 then [x]
    else if RanksBefore(p, x, order[0]) then [x] + order
    else [order[0]] + InsertByRank(p, order[1..], x)
  }

  /** Insertion keeps the order rank-sorted. */
  lemma {:induction false} InsertByRankSorted(p: seq<real>, order: seq<nat>, x: nat)
    requires x < |p| && IndicesBelow(order, |p|) && RankSorted(p, order) && x !in order
    ensures RankSorted(p, InsertByRank(p, order, x))
  {
    var r := InsertByRank(p, order, x);
    if |order| == 0 {
    } else if RanksBefore(p, x, order[0]) {
      forall a, b | 0 <= a < b < |r| ensures RanksBefore(p, r[a], r[b]) {
        if a > 0 {
          assert r[a] == order[a - 1] && r[b] == order[b - 1];
        } else {
          assert r[b] == order[b - 1];
          assert b - 1 == 0 || RanksBefore(p, order[0], order[b - 1]);
        }
      }
    } else {
      var rest := InsertByRank(p, order[1..], x);
      assert RankSorted(p, order[1..]) by {
        forall a, b | 0 <= a < b < |order[1..]| ensures RanksBefore(p, order[1..][a], order[1..][b]) {
          assert order[1..][a] == order[a + 1] && order[1..][b] == order[b + 1];
        }
      }
      InsertByRankSorted(p, order[1..], x);
      assert r == [order[0]] + rest;
      forall a, b | 0 <= a < b < |r| ensures RanksBefore(p, r[a], r[b]) {
        if a > 0 {
          assert r[a] == rest[a - 1] && r[b] == rest[b - 1];
        } else {
          assert r[b] == rest[b - 1];
          assert r[b] in rest;
          if r[b] != x {
            assert r[b] in order[1..];
            var c :| 0 <= c < |order[1..]| && order[1..][c] == r[b];
            assert RanksBefore(p, order[0], order[c + 1]);
          }
        }
      }
    }
  }

  /** probabilities.indices.sortedByDescending { probabilities[it] }, restricted
      to the first n indices. */
  function RankPrefix(p: seq<real>, n: nat): (r: seq<nat>)
    requires n <= |p|
    ensures |r| == n && IndicesBelow(r, |p|) && RankSorted(p, r)
    ensures forall i: nat :: i in r <==> i < n
  {
    if n == 0 then []
    else
      var prev := RankPrefix(p, n - 1);
      InsertByRankSorted(p, prev, n - 1);
      InsertByRank(p, prev, n - 1)
  }

  function RankByProbability(p: seq<real>): (r: seq<nat>)
  {
    RankPrefix(p, |p|)
  }

  /** The sort yields a permutation of 0..n-1 (every index exactly once) in
      descending probability order, equal probabilities in ascending index
      order. */
  lemma RankByProbabilityIsStableSort(p: seq<real>)
    ensures var r := RankByProbability(p);
            && |r| == |p| && IndicesBelow(r, |p|)
            && (forall i: nat :: i in r <==> i < |p|)
            && (forall a, b :: 0 <= a < b < |r| ==> r[a] != r[b])
            && (forall a, b :: 0 <= a < b < |r| ==> p[r[a]] >= p[r[b]])
            && (forall a, b :: 0 <= a < b < |r| && p[r[a]] == p[r[b]] ==> r[a] < r[b])
  {
    var r := RankByProbability(p);
    assert forall a, b :: 0 <= a < b < |r| ==> RanksBefore(p, r[a], r[b]);
  }

  // ---------------------------------------------------------------------------
  // The greedy pass, on rank positions, for any suppression relation

  /** Position j is deactivated by one of the kept positions. */
  predicate SuppressedBy(sup: (nat, nat) -> bool, kept: seq<nat>, j: nat)
  {
    exists k :: 0 <= k < |kept| && sup(kept[k], j)
  }

  /** The positions kept among the first m: a position is kept exactly when no
      earlier kept position suppresses it. */
  function GreedyKeep(sup: (nat, nat) -> bool, m: nat): (kept: seq<nat>)
    ensures IndicesBelow(kept, m)
    ensures forall a, b :: 0 <= a < b < |kept| ==> kept[a] < kept[b]
  {
    if m == 0 then []
    else
      var prev := GreedyKeep(sup, m - 1);
      if SuppressedBy(sup, prev, m - 1) then prev else prev + [m - 1]
  }

  lemma SuppressedByExtended(sup: (nat, nat) -> bool, kept: seq<nat>, q: nat, j: nat)
    ensures SuppressedBy(sup, kept + [q], j) <==> SuppressedBy(sup, kept, j) || sup(q, j)
  {
    var ext := kept + [q];
    if SuppressedBy(sup, ext, j) {
      var k :| 0 <= k < |ext| && sup(ext[k], j);
      if k < |kept| {
        assert ext[k] == kept[k];
      }
    }
    if SuppressedBy(sup, kept, j) {
      var k :| 0 <= k < |kept| && sup(kept[k], j);
      assert ext[k] == kept[k];
    }
    if sup(q, j) {
      assert ext[|kept|] == q;
    }
  }

  /** Every position before m is kept, or is suppressed by a kept position that
      precedes it. */
  predicate CoveredBelow(sup: (nat, nat) -> bool, kept: seq<nat>, m: nat)
  {
    forall j: nat :: j < m ==>
      j in kept || exists k :: 0 <= k < |kept| && kept[k] < j && sup(kept[k], j)
  }

  /** No kept position suppresses a later kept position. */
  predicate NoneSuppressed(sup: (nat, nat) -> bool, kept: seq<nat>)
  {
    forall a, b :: 0 <= a < b < |kept| ==> !sup(kept[a], kept[b])
  }

  lemma {:induction false} GreedyKeepCovers(sup: (nat, nat) -> bool, m: nat)
    ensures CoveredBelow(sup, GreedyKeep(sup, m), m)
  {
    if m > 0 {
      GreedyKeepCovers(sup, m - 1);
      var prev := GreedyKeep(sup, m - 1);
      var kept := GreedyKeep(sup, m);
      assert kept == prev || kept == prev + [m - 1];
      assert forall k :: 0 <= k < |prev| ==> kept[k] == prev[k];
      forall j: nat | j < m
        ensures j in kept || exists k :: 0 <= k < |kept| && kept[k] < j && sup(kept[k], j)
      {
        if j == m - 1 {
          if j !in kept {
            assert SuppressedBy(sup, prev, j);
            var k :| 0 <= k < |prev| && sup(prev[k], j);
            assert kept[k] == prev[k] && kept[k] < j;
          }
        } else if j in prev {
          assert j in kept;
        } else {
          var k :| 0 <= k < |prev| && prev[k] < j && sup(prev[k], j);
          assert kept[k] == prev[k];
        }
      }
    }
  }

  /** No kept position suppresses a later kept position. */
  lemma {:induction false} GreedyKeepPairwise(sup: (nat, nat) -> bool, m: nat)
    ensures NoneSuppressed(sup, GreedyKeep(sup, m))
  {
    if m > 0 {
      GreedyKeepPairwise(sup, m - 1);
      var prev := GreedyKeep(sup, m - 1);
      var kept := GreedyKeep(sup, m);
      if kept != prev {
        assert kept == prev + [m - 1];
        assert !SuppressedBy(sup, prev, m - 1);
        forall a, b | 0 <= a < b < |kept| ensures !sup(kept[a], kept[b]) {
          if b == |prev| {
            assert kept[a] == prev[a] && kept[b] == m - 1;
          } else {
            assert kept[a] == prev[a] && kept[b] == prev[b];
          }
        }
      }
    }
  }

  /** The first position is always kept. */
  lemma {:induction false} GreedyKeepStartsAtZero(sup: (nat, nat) -> bool, m: nat)
    requires 0 < m
    ensures var kept := GreedyKeep(sup, m);
            |kept| > 0 && kept[0] == 0
  {
    if m == 1 {
      assert GreedyKeep(sup, 0) == [];
      assert !SuppressedBy(sup, [], 0);
    } else {
      GreedyKeepStartsAtZero(sup, m - 1);
    }
  }

  // ---------------------------------------------------------------------------
  // nonMaxSuppression

  function AllCorners(boxes: seq<CenterBox>): (cs: seq<Corners>)
    ensures |cs| == |boxes|
    ensures forall k :: 0 <= k < |boxes| ==> cs[k] == ToCorners(boxes[k])
  {
    seq(|boxes|, k requires 0 <= k < |boxes| => ToCorners(boxes[k]))
  }

  /** The corner boxes in rank order: position k holds corners[indices[k]]. */
  function RankedCorners(corners: seq<Corners>, order: seq<nat>): (cs: seq<Corners>)
    requires IndicesBelow(order, |corners|)
    ensures |cs| == |order|
    ensures forall k :: 0 <= k < |order| ==> cs[k] == corners[order[k]]
  {
    seq(|order|, k requires 0 <= k < |order| => corners[order[k]])
  }

  /** The overlap test of nonMaxSuppression between two rank positions. */
  function OverlapTest(cs: seq<Corners>, overlapThreshold: real): (nat, nat) -> bool
  {
    (q: nat, j: nat) => q < |cs| && j < |cs| && Suppresses(cs[q], cs[j], overlapThreshold)
  }

  /** The original index of each kept rank position. */
  function Positions(order: seq<nat>, kept: seq<nat>): (r: seq<nat>)
    requires IndicesBelow(kept, |order|)
    ensures |r| == |kept|
    ensures forall k :: 0 <= k < |kept| ==> r[k] == order[kept[k]]
  {
    if |kept| == 0 then [] else Positions(order, kept[..|kept| - 1]) + [order[kept[|kept| - 1]]]
  }

  /** The list nonMaxSuppression returns: the original index of every kept rank position. */
  function KeptIndices(boxes: seq<CenterBox>, probabilities: seq<real>, overlapThreshold: real): seq<nat>
    requires |probabilities| <= |boxes|
  {
    var order := RankByProbability(probabilities);
    var cs := RankedCorners(AllCorners(boxes), order);
    Positions(order, GreedyKeep(OverlapTest(cs, overlapThreshold), |order|))
  }

  /** The IoU test of the inner loop, `intersection / union > overlapThreshold`,
      in the statement form of the code (areaI, areaJ and union computed one by
      one); it is PalmGeometry.Suppresses, which the specification uses. */
  method ExceedsThreshold(boxI: Corners, boxJ: Corners, overlapThreshold: real) returns (overlapping: bool)
    ensures overlapping <==> Suppresses(boxI, boxJ, overlapThreshold)
  {
    var intersection := IntersectionArea(boxI, boxJ);
    var areaI := Area(boxI);
    var areaJ := Area(boxJ);
    var union := areaI + areaJ - intersection;
    if union != 0.0 {
      overlapping := intersection / union > overlapThreshold;
    } else {
      overlapping := intersection > 0.0;
    }
  }

  /** The active flags from rank position i on say which positions no kept
      position has suppressed. */
  ghost predicate ActiveFrom(sup: (nat, nat) -> bool, kept: seq<nat>, active: seq<bool>, i: nat)
  {
    forall j :: i <= j < |active| ==> (active[j] <==> !SuppressedBy(sup, kept, j))
  }

  /** Position i's flag says whether it is suppressed, and the flags after i
      still match; so GreedyKeep takes its next step accordingly. */
  lemma ActiveAt(sup: (nat, nat) -> bool, kept: seq<nat>, active: seq<bool>, i: nat)
    requires i < |active| && ActiveFrom(sup, kept, active, i) && kept == GreedyKeep(sup, i)
    ensures active[i] <==> !SuppressedBy(sup, kept, i)
    ensures ActiveFrom(sup, kept, active, i + 1)
    ensures GreedyKeep(sup, i + 1) == if active[i] then kept + [i] else kept
  {
  }

  /** The inner loop of nonMaxSuppression: once rank position i is kept, every
      still-active later position whose box overlaps box i too much is
      deactivated, so the flags after i match the kept list extended by i. */
  method DeactivateOverlapping(active: array<bool>, corners: seq<Corners>, indices: seq<nat>, i: nat,
                               overlapThreshold: real, ghost kept: seq<nat>)
    requires active.Length == |indices| && i < |indices| && IndicesBelow(indices, |corners|)
    requires ActiveFrom(OverlapTest(RankedCorners(corners, indices), overlapThreshold), kept, active[..], i + 1)
    modifies active
    ensures ActiveFrom(OverlapTest(RankedCorners(corners, indices), overlapThreshold), kept + [i], active[..], i + 1)
    ensures forall k :: 0 <= k <= i ==> active[k] == old(active[k])
  {
    ghost var sup := OverlapTest(RankedCorners(corners, indices), overlapThreshold);
    var boxI := corners[indices[i]];
    var j := i + 1;
    while j < |indices|
      invariant i + 1 <= j <= |indices|
      invariant forall k :: i < k < j ==> (active[k] <==> !SuppressedBy(sup, kept + [i], k))
      invariant forall k :: j <= k < |indices| ==> (active[k] <==> !SuppressedBy(sup, kept, k))
      invariant forall k :: 0 <= k <= i ==> active[k] == old(active[k])
    {
      SuppressedByExtended(sup, kept, i, j);
      if active[j] {
        var boxJ := corners[indices[j]];
        var overlapping := ExceedsThreshold(boxI, boxJ, overlapThreshold);
        assert overlapping == sup(i, j);
        if overlapping {
          active[j] := false;
        }
      }
      j := j + 1;
    }
  }

  /** One step of indices.forEachIndexed: rank position i, if still active, is
      kept and deactivates the later positions it overlaps too much. */
  method VisitPosition(active: array<bool>, corners: seq<Corners>, indices: seq<nat>, i: nat,
                       overlapThreshold: real, keep: seq<nat>, ghost kept: seq<nat>)
    returns (keep': seq<nat>, ghost kept': seq<nat>)
    requires active.Length == |indices| && i < |indices| && IndicesBelow(indices, |corners|)
    requires kept == GreedyKeep(OverlapTest(RankedCorners(corners, indices), overlapThreshold), i)
    requires keep == Positions(indices, kept)
    requires ActiveFrom(OverlapTest(RankedCorners(corners, indices), overlapThreshold), kept, active[..], i)
    modifies active
    ensures kept' == GreedyKeep(OverlapTest(RankedCorners(corners, indices), overlapThreshold), i + 1)
    ensures keep' == Positions(indices, kept')
    ensures ActiveFrom(OverlapTest(RankedCorners(corners, indices), overlapThreshold), kept', active[..], i + 1)
    ensures forall k :: 0 <= k <= i ==> active[k] == old(active[k])
  {
    ActiveAt(OverlapTest(RankedCorners(corners, indices), overlapThreshold), kept, active[..], i);
    if active[i] {
      keep' := keep + [indices[i]];
      DeactivateOverlapping(active, corners, indices, i, overlapThreshold, kept);
      assert (kept + [i])[..|kept|] == kept;
      kept' := kept + [i];
    } else {
      keep', kept' := keep, kept;
    }
  }

  /** The loop indices.forEachIndexed of nonMaxSuppression: every rank position
      still active when reached is kept and deactivates the later positions it
      overlaps too much. */
  method GreedyPass(corners: seq<Corners>, indices: seq<nat>, overlapThreshold: real) returns (keep: seq<nat>)
    requires IndicesBelow(indices, |corners|)
    ensures keep == Positions(indices, GreedyKeep(OverlapTest(RankedCorners(corners, indices), overlapThreshold), |indices|))
  {
    ghost var sup := OverlapTest(RankedCorners(corners, indices), overlapThreshold);
    var n := |indices|;
    var active := new bool[n](_ => true);
    keep := [];
    ghost var kept: seq<nat> := [];
    var i := 0;
    while i < n
      invariant 0 <= i <= n == active.Length
      invariant kept == GreedyKeep(sup, i)
      invariant keep == Positions(indices, kept)
      invariant ActiveFrom(sup, kept, active[..], i)
    {
      keep, kept := VisitPosition(active, corners, indices, i, overlapThreshold, keep, kept);
      i := i + 1;
    }
  }

  /** nonMaxSuppression: corner boxes, the stable ranking, then the greedy pass. */
  method NonMaxSuppression(boxes: seq<CenterBox>, probabilities: seq<real>,
                           overlapThreshold: real := DEFAULT_OVERLAP_THRESHOLD)
    returns (keep: seq<nat>)
    requires |probabilities| <= |boxes|
    ensures keep == KeptIndices(boxes, probabilities, overlapThreshold)
  {
    var corners := AllCorners(boxes);
    var indices := RankByProbability(probabilities);
    keep := GreedyPass(corners, indices, overlapThreshold);
  }

  // ---------------------------------------------------------------------------
  // What the kept list satisfies

  /** The kept indices are distinct indices of probabilities, and each ranks
      before the next: the probabilities are non-increasing, with ties in
      ascending index order. */
  lemma KeptIndicesOrdered(boxes: seq<CenterBox>, probabilities: seq<real>, overlapThreshold: real)
    requires |probabilities| <= |boxes|
    ensures var keep := KeptIndices(boxes, probabilities, overlapThreshold);
            && IndicesBelow(keep, |probabilities|)
            && (forall a, b :: 0 <= a < b < |keep| ==> keep[a] != keep[b])
            && (forall a, b :: 0 <= a < b < |keep| ==> RanksBefore(probabilities, keep[a], keep[b]))
            && (forall a, b :: 0 <= a < b < |keep| ==> probabilities[keep[a]] >= probabilities[keep[b]])
  {
    var order := RankByProbability(probabilities);
    var cs := RankedCorners(AllCorners(boxes), order);
    var kept := GreedyKeep(OverlapTest(cs, overlapThreshold), |order|);
    var keep := KeptIndices(boxes, probabilities, overlapThreshold);
    assert forall a, b :: 0 <= a < b < |keep| ==> RanksBefore(probabilities, keep[a], keep[b]) by {
      forall a, b | 0 <= a < b < |keep| ensures RanksBefore(probabilities, keep[a], keep[b]) {
        assert keep[a] == order[kept[a]] && keep[b] == order[kept[b]] && kept[a] < kept[b];
      }
    }
  }

  /** A non-empty input keeps something, and the first kept index has the
      highest probability, the earliest one on ties. */
  lemma KeptIndicesStartAtMaximum(boxes: seq<CenterBox>, probabilities: seq<real>, overlapThreshold: real)
    requires 0 < |probabilities| <= |boxes|
    ensures var keep := KeptIndices(boxes, probabilities, overlapThreshold);
            && |keep| > 0 && keep[0] < |probabilities|
            && (forall j :: 0 <= j < |probabilities| ==> probabilities[j] <= probabilities[keep[0]])
            && (forall j :: 0 <= j < |probabilities| && probabilities[j] == probabilities[keep[0]] ==> keep[0] <= j)
  {
    var order := RankByProbability(probabilities);
    var cs := RankedCorners(AllCorners(boxes), order);
    GreedyKeepStartsAtZero(OverlapTest(cs, overlapThreshold), |order|);
    var keep := KeptIndices(boxes, probabilities, overlapThreshold);
    assert keep[0] == order[0];
    forall j | 0 <= j < |probabilities|
      ensures probabilities[j] <= probabilities[keep[0]]
      ensures probabilities[j] == probabilities[keep[0]] ==> keep[0] <= j
    {
      assert j in order;
      var b :| 0 <= b < |order| && order[b] == j;
      if b > 0 {
        assert RanksBefore(probabilities, order[0], order[b]);
      }
    }
  }

  /** An empty input keeps nothing. */
  lemma KeptIndicesOfNothing(boxes: seq<CenterBox>, overlapThreshold: real)
    ensures KeptIndices(boxes, [], overlapThreshold) == []
  {
  }

  /** Every index is kept, or was deactivated by a kept index that ranks before
      it and overlaps it by more than the threshold. */
  lemma KeptIndicesCover(boxes: seq<CenterBox>, probabilities: seq<real>, overlapThreshold: real)
    requires |probabilities| <= |boxes|
    ensures var keep := KeptIndices(boxes, probabilities, overlapThreshold);
            var corners := AllCorners(boxes);
            forall idx :: 0 <= idx < |probabilities| ==>
              idx in keep ||
              exists k :: 0 <= k < |keep| && keep[k] < |probabilities| && RanksBefore(probabilities, keep[k], idx)
                       && Suppresses(corners[keep[k]], corners[idx], overlapThreshold)
  {
    var order := RankByProbability(probabilities);
    var corners := AllCorners(boxes);
    var cs := RankedCorners(corners, order);
    var sup := OverlapTest(cs, overlapThreshold);
    var kept := GreedyKeep(sup, |order|);
    var keep := KeptIndices(boxes, probabilities, overlapThreshold);
    GreedyKeepCovers(sup, |order|);
    forall idx | 0 <= idx < |probabilities|
      ensures idx in keep ||
              exists k :: 0 <= k < |keep| && keep[k] < |probabilities| && RanksBefore(probabilities, keep[k], idx)
                       && Suppresses(corners[keep[k]], corners[idx], overlapThreshold)
    {
      assert idx in order;
      var j :| 0 <= j < |order| && order[j] == idx;
      if j in kept {
        var k :| 0 <= k < |kept| && kept[k] == j;
        assert keep[k] == idx;
      } else {
        var k :| 0 <= k < |kept| && kept[k] < j && sup(kept[k], j);
        assert keep[k] == order[kept[k]];
        assert RanksBefore(probabilities, order[kept[k]], order[j]);
        assert cs[kept[k]] == corners[keep[k]] && cs[j] == corners[idx];
      }
    }
  }

  /** No two kept boxes overlap by more than the threshold; where their union is
      non-zero, their IoU is at most the threshold. */
  lemma KeptIndicesPairwise(boxes: seq<CenterBox>, probabilities: seq<real>, overlapThreshold: real)
    requires |probabilities| <= |boxes|
    ensures var keep := KeptIndices(boxes, probabilities, overlapThreshold);
            var corners := AllCorners(boxes);
            && IndicesBelow(keep, |boxes|)
            && (forall a, b :: 0 <= a < |keep| && 0 <= b < |keep| && a != b ==>
                  !Suppresses(corners[keep[a]], corners[keep[b]], overlapThreshold))
            && (forall a, b :: (0 <= a < |keep| && 0 <= b < |keep| && a != b &&
                  UnionArea(corners[keep[a]], corners[keep[b]]) != 0.0) ==>
                  IntersectionArea(corners[keep[a]], corners[keep[b]]) / UnionArea(corners[keep[a]], corners[keep[b]])
                    <= overlapThreshold)
  {
    var order := RankByProbability(probabilities);
    var corners := AllCorners(boxes);
    var cs := RankedCorners(corners, order);
    var sup := OverlapTest(cs, overlapThreshold);
    var kept := GreedyKeep(sup, |order|);
    var keep := KeptIndices(boxes, probabilities, overlapThreshold);
    GreedyKeepPairwise(sup, |order|);
    forall a, b | 0 <= a < |keep| && 0 <= b < |keep| && a != b
      ensures !Suppresses(corners[keep[a]], corners[keep[b]], overlapThreshold)
    {
      assert corners[keep[a]] == cs[kept[a]] && corners[keep[b]] == cs[kept[b]];
      if a < b {
        assert !sup(kept[a], kept[b]);
      } else {
        assert !sup(kept[b], kept[a]);
        SuppressesSymmetric(cs[kept[b]], cs[kept[a]], overlapThreshold);
      }
    }
  }
}
