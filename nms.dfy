/**
 * Greedy non-maximum suppression (`applyNMS`): the candidates are sorted by
 * descending confidence, stably, and a candidate is kept only when its IoU
 * with every box kept so far is at most 0.3. Labels play no part.
 */
module Suppression {
  import opened Geometry
  import opened DetectionResult

  const IoUThreshold: real := 0.3

  /**
   * Places `d` in front of the first element whose confidence is not above its
   * own; inserting the earlier elements of a list this way keeps ties in their
   * original order.
   */
  function Insert(d: Detection, sorted: seq<Detection>): (r: seq<Detection>)
    ensures |r| == |sorted| + 1
  {
    if sorted == [] || d.confidence >= sorted[0].confidence then [d] + sorted
    else [sorted[0]] + Insert(d, sorted[1..])
  }

  /** The stable descending-confidence sort of Kotlin's `sortedByDescending`. */
  function SortByConfidence(ds: seq<Detection>): (r: seq<Detection>)
    ensures |r| == |ds|
  {
    if ds == [] then [] else Insert(ds[0], SortByConfidence(ds[1..]))
  }

  predicate Descending(s: seq<Detection>) {
    forall i, j :: 0 <= i < j < |s| ==> s[i].confidence >= s[j].confidence
  }

  /** The elements of `s` whose confidence is exactly `c`, in order. */
  function WithConfidence(s: seq<Detection>, c: real): (r: seq<Detection>)
    ensures |r| <= |s|
  {
    if s == [] then []
    else if s[0].confidence == c then [s[0]] + WithConfidence(s[1..], c)
    else WithConfidence(s[1..], c)
  }

  /** Inserting adds exactly one occurrence of the inserted detection. */
  lemma {:induction false} InsertPermutes(d: Detection, sorted: seq<Detection>)
    ensures multiset(Insert(d, sorted)) == multiset(sorted) + multiset{d}
  {
    if sorted != [] && d.confidence < sorted[0].confidence {
      InsertPermutes(d, sorted[1..]);
      assert sorted == [sorted[0]] + sorted[1..];
    }
  }

  /** A bound on every confidence survives inserting a detection under it. */
  lemma {:induction false} InsertBelow(d: Detection, sorted: seq<Detection>, c: real)
    requires d.confidence <= c
    requires forall k :: 0 <= k < |sorted| ==> sorted[k].confidence <= c
    ensures forall k :: 0 <= k < |Insert(d, sorted)| ==> Insert(d, sorted)[k].confidence <= c
  {
    if sorted != [] && d.confidence < sorted[0].confidence {
      InsertBelow(d, sorted[1..], c);
    }
  }

  lemma {:induction false} InsertDescending(d: Detection, sorted: seq<Detection>)
    requires Descending(sorted)
    ensures Descending(Insert(d, sorted))
  {
    if sorted != [] && d.confidence < sorted[0].confidence {
      InsertDescending(d, sorted[1..]);
      InsertBelow(d, sorted[1..], sorted[0].confidence);
      var r := Insert(d, sorted);
      assert r == [sorted[0]] + Insert(d, sorted[1..]);
    }
  }

  /** The sort orders by non-increasing confidence and is a permutation of its input. */
  lemma {:induction false} SortSound(ds: seq<Detection>)
    ensures Descending(SortByConfidence(ds))
    ensures multiset(SortByConfidence(ds)) == multiset(ds)
  {
    if ds != [] {
      SortSound(ds[1..]);
      InsertDescending(ds[0], SortByConfidence(ds[1..]));
      InsertPermutes(ds[0], SortByConfidence(ds[1..]));
      assert ds == [ds[0]] + ds[1..];
    }
  }

  lemma {:induction false} InsertKeepsTies(d: Detection, sorted: seq<Detection>, c: real)
    ensures WithConfidence(Insert(d, sorted), c) ==
      if d.confidence == c then [d] + WithConfidence(sorted, c) else WithConfidence(sorted, c)
  {
    if sorted == [] || d.confidence >= sorted[0].confidence {
      assert Insert(d, sorted)[1..] == sorted;
    } else {
      InsertKeepsTies(d, sorted[1..], c);
      assert Insert(d, sorted)[1..] == Insert(d, sorted[1..]);
    }
  }

  /** The sort is stable: detections of equal confidence keep their input order. */
  lemma {:induction false} SortStable(ds: seq<Detection>, c: real)
    ensures WithConfidence(SortByConfidence(ds), c) == WithConfidence(ds, c)
  {
    if ds != [] {
      SortStable(ds[1..], c);
      InsertKeepsTies(ds[0], SortByConfidence(ds[1..]), c);
    }
  }

  /** A list already in non-increasing confidence order is left as it is. */
  lemma {:induction false} SortOfDescending(ds: seq<Detection>)
    requires Descending(ds)
    ensures SortByConfidence(ds) == ds
  {
    if ds != [] {
      assert Descending(ds[1..]);
      SortOfDescending(ds[1..]);
      assert ds == [ds[0]] + ds[1..];
    }
  }

  /** The inner loop lets a candidate in when no kept box overlaps it by more than 0.3. */
  predicate Admissible(d: Detection, kept: seq<Detection>) {
    forall k :: 0 <= k < |kept| ==> IoU(d.boundingBox, kept[k].boundingBox) <= IoUThreshold
  }

  /** The boxes kept after the outer loop has visited the first `n` sorted candidates. */
  function Select(sorted: seq<Detection>, n: nat): seq<Detection>
    requires n <= |sorted|
  {
    if n == 0 then []
    else
      var kept := Select(sorted, n - 1);
      if Admissible(sorted[n - 1], kept) then kept + [sorted[n - 1]] else kept
  }

  /** The result of `applyNMS`. */
  function Nms(ds: seq<Detection>): seq<Detection> {
    if ds == [] then []
    else
      var sorted := SortByConfidence(ds);
      Select(sorted, |sorted|)
  }

  /** `out` picks the elements of `s` at strictly increasing positions `idx`. */
  predicate PicksAt(out: seq<Detection>, s: seq<Detection>, idx: seq<nat>) {
    |idx| == |out| &&
    (forall k :: 0 <= k < |idx| ==> idx[k] < |s| && out[k] == s[idx[k]]) &&
    (forall k, l :: 0 <= k < l < |idx| ==> idx[k] < idx[l])
  }

  ghost predicate IsSubsequence(out: seq<Detection>, s: seq<Detection>) {
    exists idx :: PicksAt(out, s, idx)
  }

  /** The kept boxes sit at increasing positions among the first `n` sorted candidates. */
  lemma {:induction false} SelectPositions(sorted: seq<Detection>, n: nat) returns (idx: seq<nat>)
    requires n <= |sorted|
    ensures PicksAt(Select(sorted, n), sorted, idx)
    ensures forall k :: 0 <= k < |idx| ==> idx[k] < n
  {
    if n == 0 {
      idx := [];
    } else {
      var previous := SelectPositions(sorted, n - 1);
      var kept := Select(sorted, n - 1);
      if Admissible(sorted[n - 1], kept) {
        idx := previous + [n - 1];
        var out := kept + [sorted[n - 1]];
        forall k | 0 <= k < |idx|
          ensures idx[k] < |sorted| && out[k] == sorted[idx[k]]
        {
          if k < |previous| {
            assert idx[k] == previous[k] && out[k] == kept[k];
          }
        }
      } else {
        idx := previous;
      }
    }
  }

  /** Visiting more candidates only appends to what was kept. */
  lemma {:induction false} SelectGrows(sorted: seq<Detection>, m: nat, n: nat)
    requires m <= n <= |sorted|
    ensures |Select(sorted, m)| <= |Select(sorted, n)|
    ensures Select(sorted, n)[..|Select(sorted, m)|] == Select(sorted, m)
  {
    if m < n {
      SelectGrows(sorted, m, n - 1);
      var kept := Select(sorted, n - 1);
      assert Select(sorted, n)[..|kept|] == kept;
    }
  }

  /** No two kept boxes overlap by more than 0.3, whichever is the candidate. */
  predicate Separated(kept: seq<Detection>) {
    forall i, j :: 0 <= i < |kept| && 0 <= j < |kept| && i != j ==>
      IoU(kept[i].boundingBox, kept[j].boundingBox) <= IoUThreshold
  }

  lemma {:induction false} SelectSeparated(sorted: seq<Detection>, n: nat)
    requires n <= |sorted|
    ensures Separated(Select(sorted, n))
  {
    if n > 0 {
      SelectSeparated(sorted, n - 1);
      var kept := Select(sorted, n - 1);
      var d := sorted[n - 1];
      if Admissible(d, kept) {
        var out := kept + [d];
        forall i, j | 0 <= i < |out| && 0 <= j < |out| && i != j
          ensures IoU(out[i].boundingBox, out[j].boundingBox) <= IoUThreshold
        {
          if i == |kept| {
            assert out[j] == kept[j];
          } else if j == |kept| {
            assert out[i] == kept[i];
            IoUSymmetric(kept[i].boundingBox, d.boundingBox);
          } else {
            assert out[i] == kept[i] && out[j] == kept[j];
          }
        }
      }
    }
  }

  /**
   * Every candidate visited is kept, or overlaps by more than 0.3 a box that
   * stands earlier in the sorted order and is kept.
   */
  lemma SelectCovers(sorted: seq<Detection>, n: nat, m: nat)
    requires m < n <= |sorted|
    ensures var out := Select(sorted, n);
      sorted[m] in out ||
      exists p :: 0 <= p < m && sorted[p] in out && IoU(sorted[m].boundingBox, sorted[p].boundingBox) > IoUThreshold
  {
    SelectGrows(sorted, m + 1, n);
    var before := Select(sorted, m);
    var out := Select(sorted, n);
    SelectGrows(sorted, m, n);
    if Admissible(sorted[m], before) {
      var after := Select(sorted, m + 1);
      assert after[|after| - 1] == sorted[m];
      assert out[|after| - 1] == sorted[m];
    } else {
      var j :| 0 <= j < |before| && IoU(sorted[m].boundingBox, before[j].boundingBox) > IoUThreshold;
      var idx := SelectPositions(sorted, m);
      var p := idx[j];
      assert out[j] == before[j] == sorted[p];
      assert p < m;
    }
  }

  /** The output is a subsequence of the stable descending sort of the input. */
  lemma NmsSubsequenceOfSort(ds: seq<Detection>)
    ensures IsSubsequence(Nms(ds), SortByConfidence(ds))
  {
    var sorted := SortByConfidence(ds);
    var idx := SelectPositions(sorted, |sorted|);
    if ds == [] {
      assert PicksAt(Nms(ds), sorted, []);
    } else {
      assert PicksAt(Nms(ds), sorted, idx);
    }
  }

  /** A subsequence of a descending list is descending. */
  lemma PicksDescending(out: seq<Detection>, s: seq<Detection>, idx: seq<nat>)
    requires Descending(s) && PicksAt(out, s, idx)
    ensures Descending(out)
  {
    forall i, j | 0 <= i < j < |out|
      ensures out[i].confidence >= out[j].confidence
    {
      assert idx[i] < idx[j];
    }
  }

  /** The kept boxes come out in non-increasing confidence order. */
  lemma NmsDescending(ds: seq<Detection>)
    ensures Descending(Nms(ds))
  {
    var sorted := SortByConfidence(ds);
    SortSound(ds);
    var idx := SelectPositions(sorted, |sorted|);
    if ds != [] {
      PicksDescending(Nms(ds), sorted, idx);
    }
  }

  /** No two kept boxes have IoU above 0.3. */
  lemma NmsSeparated(ds: seq<Detection>)
    ensures Separated(Nms(ds))
  {
    var sorted := SortByConfidence(ds);
    SelectSeparated(sorted, |sorted|);
  }

  /**
   * Every input detection, at its place `m` in the sorted order, is kept, or
   * overlaps by more than 0.3 a kept box that comes before it in that order
   * (so at least as confident), whatever the two labels are.
   */
  lemma NmsCovers(ds: seq<Detection>, m: nat)
    requires m < |ds|
    ensures var sorted := SortByConfidence(ds);
      var out := Nms(ds);
      sorted[m] in out ||
      exists p :: 0 <= p < m && sorted[p] in out &&
        IoU(sorted[m].boundingBox, sorted[p].boundingBox) > IoUThreshold &&
        sorted[p].confidence >= sorted[m].confidence
  {
    var sorted := SortByConfidence(ds);
    SortSound(ds);
    SelectCovers(sorted, |sorted|, m);
  }

  /** Every detection of the input occurs at some place of the sorted order. */
  lemma SortedPlace(ds: seq<Detection>, d: Detection) returns (m: nat)
    requires d in ds
    ensures m < |ds| && SortByConfidence(ds)[m] == d
  {
    SortSound(ds);
    assert d in multiset(SortByConfidence(ds));
    m :| 0 <= m < |ds| && SortByConfidence(ds)[m] == d;
  }

  /** Keeping a separated list visits every element and keeps it. */
  lemma {:induction false} SelectOfSeparated(s: seq<Detection>, n: nat)
    requires Separated(s) && n <= |s|
    ensures Select(s, n) == s[..n]
  {
    if n > 0 {
      SelectOfSeparated(s, n - 1);
      assert s[..n] == s[..n - 1] + [s[n - 1]];
      var prefix := s[..n - 1];
      forall k | 0 <= k < |prefix|
        ensures IoU(s[n - 1].boundingBox, prefix[k].boundingBox) <= IoUThreshold
      {
        assert prefix[k] == s[k];
      }
    }
  }

  /** Suppression of no candidates keeps none. */
  lemma NmsEmpty()
    ensures Nms([]) == []
  {
  }

  /** Suppressing the output again changes nothing. */
  lemma NmsIdempotent(ds: seq<Detection>)
    ensures Nms(Nms(ds)) == Nms(ds)
  {
    var out := Nms(ds);
    if out != [] {
      NmsDescending(ds);
      NmsSeparated(ds);
      SortOfDescending(out);
      SelectOfSeparated(out, |out|);
    }
  }

  /**
   * A box that overlaps a more confident one by more than 0.3 is dropped even
   * when the two carry different labels: suppression is class-agnostic.
   */
  lemma CrossLabelSuppression(strong: Detection, weak: Detection)
    requires strong.confidence > weak.confidence
    requires IoU(strong.boundingBox, weak.boundingBox) > IoUThreshold
    ensures Nms([weak, strong]) == [strong]
  {
    IoUSymmetric(strong.boundingBox, weak.boundingBox);
    assert [weak, strong][1..] == [strong] && [strong][1..] == [];
    assert SortByConfidence([strong]) == [strong];
    assert Insert(weak, [strong]) == [strong, weak];
    var sorted := SortByConfidence([weak, strong]);
    assert sorted == [strong, weak];
    assert Select(sorted, 1) == [strong];
    assert !Admissible(weak, [strong]);
  }

  /**
   * Of two equally confident boxes that overlap by more than 0.3, the one
   * earlier in the input survives: the sort is stable and keeps it in front.
   */
  lemma TieKeepsFirst(first: Detection, second: Detection)
    requires first.confidence == second.confidence
    requires IoU(second.boundingBox, first.boundingBox) > IoUThreshold
    ensures Nms([first, second]) == [first]
  {
    assert [first, second][1..] == [second] && [second][1..] == [];
    assert SortByConfidence([second]) == [second];
    assert Insert(first, [second]) == [first, second];
    var sorted := SortByConfidence([first, second]);
    assert sorted == [first, second];
    assert Select(sorted, 1) == [first];
    assert !Admissible(second, [first]);
  }

  /** The suppression loop of `applyNMS`. */
  method ApplyNms(detections: seq<Detection>) returns (finalDetections: seq<Detection>)
    ensures finalDetections == Nms(detections)
  {
    if |detections| == 0 {
      return [];
    }
    var sortedDetections := SortByConfidence(detections);
    finalDetections := [];
    for i := 0 to |sortedDetections|
      invariant finalDetections == Select(sortedDetections, i)
    {
      var detection := sortedDetections[i];
      var shouldAdd := true;
      var j := 0;
      while j < |finalDetections|
        invariant 0 <= j <= |finalDetections|
        invariant forall k :: 0 <= k < j ==> IoU(detection.boundingBox, finalDetections[k].boundingBox) <= IoUThreshold
      {
        var iou := IoU(detection.boundingBox, finalDetections[j].boundingBox);
        if iou > IoUThreshold {
          shouldAdd := false;
          break;
        }
        j := j + 1;
      }
      assert shouldAdd <==> Admissible(detection, finalDetections);
      if shouldAdd {
        finalDetections := finalDetections + [detection];
      }
    }
  }
}
