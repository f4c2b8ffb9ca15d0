/**
 * Decoding of the YOLO output tensor (the loop of `postProcessOnnxOutput`):
 * for every candidate slot, the best of the four class scores, the confidence
 * floor, denormalisation against the image, validity checks, the clamped
 * corner rectangle, the minimum and maximum box-size filters and the label.
 *
 * The batch is `output[0]`: a sequence of rows, each a sequence of slot values.
 * Rows 0-3 are centre x, centre y, width and height normalised to [0, 1];
 * rows 4-7 are the class scores. Floats are modelled as reals; the image
 * size enters the per-slot arithmetic as a float, as the Kotlin
 * `Float * Int` products convert it.
 */
module Decoder {
  import opened Wrappers
  import opened Text
  import opened Geometry
  import opened DetectionResult

  const NumClasses: nat := 4
  /** Rows the batch must have: four box rows and one score row per class. */
  const OutputRows: nat := 8
  const ConfidenceThreshold: real := 0.5
  /** The second, lower confidence floor applied after the 0.5 threshold. */
  const LowScoreFloor: real := 0.1
  const MinBoxSize: real := 50.0
  const MaxBoxFraction: real := 0.3

  /**
   * The class the inner loop picks: a later score replaces the current one only
   * when it is strictly greater, so the result is the FIRST index of a maximal score.
   */
  function BestClass(scores: seq<real>): (c: nat)
    requires |scores| > 0
    ensures c < |scores|
    ensures forall j :: 0 <= j < |scores| ==> scores[j] <= scores[c]
    ensures forall j :: 0 <= j < c ==> scores[j] < scores[c]
  {
    if |scores| == 1 then 0
    else
      var best := BestClass(scores[..|scores| - 1]);
      if scores[|scores| - 1] > scores[best] then |scores| - 1 else best
  }

  /** The label of a class: the table entry when there is one, otherwise `Class_<index>`. */
  function LabelFor(c: nat, labels: seq<string>): (name: string)
    ensures c < |labels| ==> name == labels[c]
    ensures c >= |labels| ==> name == "Class_" + NatToString(c)
  {
    if c < |labels| then labels[c] else "Class_" + NatToString(c)
  }

  /** The four class scores of slot `i`. */
  function ClassScores(batch: seq<seq<real>>, i: nat): (scores: seq<real>)
    requires |batch| >= OutputRows && ScoresReadable(batch, i)
    ensures |scores| == NumClasses
    ensures forall k :: 0 <= k < NumClasses ==> scores[k] == batch[4 + k][i]
  {
    [batch[4][i], batch[5][i], batch[6][i], batch[7][i]]
  }

  /** The four class-score rows reach slot `i`; reading a shorter one throws. */
  predicate ScoresReadable(batch: seq<seq<real>>, i: nat)
    requires |batch| >= OutputRows
  {
    i < |batch[4]| && i < |batch[5]| && i < |batch[6]| && i < |batch[7]|
  }

  /** The centre-y, width and height rows reach slot `i`; reading a shorter one throws. */
  predicate BoxReadable(batch: seq<seq<real>>, i: nat)
    requires |batch| >= OutputRows
  {
    i < |batch[1]| && i < |batch[2]| && i < |batch[3]|
  }

  /** The source reads every row at slot `i`; a shorter row throws, and the slot is skipped. */
  predicate SlotReadable(batch: seq<seq<real>>, i: nat)
    requires |batch| >= OutputRows
  {
    i < |batch[0]| && BoxReadable(batch, i) && ScoresReadable(batch, i)
  }

  /** The corner rectangle of a centre/size box, each edge clamped into the image. */
  function ClampedBox(centerX: real, centerY: real, width: real, height: real, imageWidth: real, imageHeight: real): Box {
    Box(
      Max(0.0, centerX - width / 2.0),
      Max(0.0, centerY - height / 2.0),
      Min(imageWidth, centerX + width / 2.0),
      Min(imageHeight, centerY + height / 2.0))
  }

  /** The upper size bound: one bound, the smaller of 0.3 W and 0.3 H, for both axes. */
  function MaxBoxSize(imageWidth: real, imageHeight: real): real {
    Min(imageWidth * MaxBoxFraction, imageHeight * MaxBoxFraction)
  }

  /**
   * The geometric half of a slot, on pixel values: the centre must lie in the
   * image and the size be positive, and the clamped rectangle must fit the size
   * window on both axes.
   */
  function PixelBox(centerX: real, centerY: real, width: real, height: real, imageWidth: real, imageHeight: real): Option<Box> {
    if centerX < 0.0 || centerY < 0.0 || width <= 0.0 || height <= 0.0 then None
    else if centerX > imageWidth || centerY > imageHeight then None
    else
      var box := ClampedBox(centerX, centerY, width, height, imageWidth, imageHeight);
      if box.Width() < MinBoxSize || box.Height() < MinBoxSize then None
      else if box.Width() > MaxBoxSize(imageWidth, imageHeight) || box.Height() > MaxBoxSize(imageWidth, imageHeight) then None
      else Some(box)
  }

  /** A rectangle inside the image whose sides both lie in the size window. */
  predicate InWindow(b: Box, imageWidth: real, imageHeight: real) {
    0.0 <= b.left <= b.right <= imageWidth &&
    0.0 <= b.top <= b.bottom <= imageHeight &&
    MinBoxSize <= b.Width() <= MaxBoxSize(imageWidth, imageHeight) &&
    MinBoxSize <= b.Height() <= MaxBoxSize(imageWidth, imageHeight)
  }

  /**
   * A pixel box is kept exactly when the centre is inside the image, the size
   * is positive and the clamped rectangle fits the size window; a kept box is
   * that clamped rectangle, inside the image with left <= right and top <= bottom.
   */
  lemma PixelBoxSound(centerX: real, centerY: real, width: real, height: real, imageWidth: real, imageHeight: real)
    ensures var r := PixelBox(centerX, centerY, width, height, imageWidth, imageHeight);
      var b := ClampedBox(centerX, centerY, width, height, imageWidth, imageHeight);
      (r.Some? <==>
        0.0 <= centerX <= imageWidth && 0.0 <= centerY <= imageHeight && width > 0.0 && height > 0.0 &&
        MinBoxSize <= b.Width() <= MaxBoxSize(imageWidth, imageHeight) &&
        MinBoxSize <= b.Height() <= MaxBoxSize(imageWidth, imageHeight)) &&
      (r.Some? ==> r.value == b && InWindow(b, imageWidth, imageHeight))
  {
    var b := ClampedBox(centerX, centerY, width, height, imageWidth, imageHeight);
    if 0.0 <= centerX <= imageWidth && 0.0 <= centerY <= imageHeight && width > 0.0 && height > 0.0 {
      assert b.left <= centerX <= b.right;
      assert b.top <= centerY <= b.bottom;
    }
  }

  /** One iteration of the slot loop: the detection it appends, if any. */
  function DecodeSlot(batch: seq<seq<real>>, i: nat, imageWidth: real, imageHeight: real, labels: seq<string>): Option<Detection>
    requires |batch| >= OutputRows && i < |batch[0]|
  {
    if !ScoresReadable(batch, i) then None
    else
      var scores := ClassScores(batch, i);
      var c := BestClass(scores);
      var score := scores[c];
      if score < ConfidenceThreshold then None
      else if score < LowScoreFloor then None
      else if !BoxReadable(batch, i) then None
      else
        match PixelBox(batch[0][i] * imageWidth, batch[1][i] * imageHeight,
                       batch[2][i] * imageWidth, batch[3][i] * imageHeight, imageWidth, imageHeight)
        case None => None
        case Some(box) => Some(Detection(box, LabelFor(c, labels), score))
  }

  /** What every decoded detection satisfies. */
  predicate Emittable(d: Detection, imageWidth: real, imageHeight: real) {
    d.confidence >= ConfidenceThreshold && InWindow(d.boundingBox, imageWidth, imageHeight)
  }

  /**
   * Exactly when a slot yields a detection: every row is readable, the best
   * class score is at least 0.5 and the pixel box is kept. The second floor
   * plays no part: 0.5 is the only threshold that decides.
   */
  lemma DecodeSlotKeptIff(batch: seq<seq<real>>, i: nat, imageWidth: real, imageHeight: real, labels: seq<string>)
    requires |batch| >= OutputRows && i < |batch[0]|
    ensures DecodeSlot(batch, i, imageWidth, imageHeight, labels).Some? <==>
      SlotReadable(batch, i) &&
      ClassScores(batch, i)[BestClass(ClassScores(batch, i))] >= ConfidenceThreshold &&
      PixelBox(batch[0][i] * imageWidth, batch[1][i] * imageHeight,
               batch[2][i] * imageWidth, batch[3][i] * imageHeight, imageWidth, imageHeight).Some?
  {
  }

  /**
   * A decoded slot carries the best class score as its confidence and that
   * class's label.
   */
  lemma DecodeSlotScore(batch: seq<seq<real>>, i: nat, imageWidth: real, imageHeight: real, labels: seq<string>)
    requires |batch| >= OutputRows && i < |batch[0]|
    ensures var r := DecodeSlot(batch, i, imageWidth, imageHeight, labels);
      r.Some? ==>
        SlotReadable(batch, i) &&
        var c := BestClass(ClassScores(batch, i));
        r.value.confidence == ClassScores(batch, i)[c] >= ConfidenceThreshold &&
        r.value.labelName == LabelFor(c, labels)
  {
  }

  /** A decoded slot's box is clamped into the image and lies in the size window. */
  lemma DecodeSlotInWindow(batch: seq<seq<real>>, i: nat, imageWidth: real, imageHeight: real, labels: seq<string>)
    requires |batch| >= OutputRows && i < |batch[0]|
    ensures var r := DecodeSlot(batch, i, imageWidth, imageHeight, labels);
      r.Some? ==> InWindow(r.value.boundingBox, imageWidth, imageHeight)
  {
    if SlotReadable(batch, i) {
      PixelBoxSound(batch[0][i] * imageWidth, batch[1][i] * imageHeight,
                    batch[2][i] * imageWidth, batch[3][i] * imageHeight, imageWidth, imageHeight);
    }
  }

  /** Every decoded slot is emittable: confidence at least 0.5, box clamped and in the size window. */
  lemma DecodeSlotSound(batch: seq<seq<real>>, i: nat, imageWidth: real, imageHeight: real, labels: seq<string>)
    requires |batch| >= OutputRows && i < |batch[0]|
    ensures var r := DecodeSlot(batch, i, imageWidth, imageHeight, labels);
      r.Some? ==> Emittable(r.value, imageWidth, imageHeight)
  {
    DecodeSlotInWindow(batch, i, imageWidth, imageHeight, labels);
    DecodeSlotScore(batch, i, imageWidth, imageHeight, labels);
  }

  /** A box narrower or shorter than 50 px, or beyond the upper bound, is dropped whatever its score. */
  lemma OutOfSizeWindowDropped(batch: seq<seq<real>>, i: nat, imageWidth: real, imageHeight: real, labels: seq<string>)
    requires |batch| >= OutputRows && SlotReadable(batch, i)
    requires var b := ClampedBox(batch[0][i] * imageWidth, batch[1][i] * imageHeight,
                                 batch[2][i] * imageWidth, batch[3][i] * imageHeight, imageWidth, imageHeight);
      b.Width() < MinBoxSize || b.Height() < MinBoxSize ||
      b.Width() > MaxBoxSize(imageWidth, imageHeight) || b.Height() > MaxBoxSize(imageWidth, imageHeight)
    ensures DecodeSlot(batch, i, imageWidth, imageHeight, labels) == None
  {
    PixelBoxSound(batch[0][i] * imageWidth, batch[1][i] * imageHeight,
                  batch[2][i] * imageWidth, batch[3][i] * imageHeight, imageWidth, imageHeight);
    DecodeSlotKeptIff(batch, i, imageWidth, imageHeight, labels);
  }

  /** What each slot of the batch decodes to, in slot order. */
  function SlotResults(batch: seq<seq<real>>, imageWidth: real, imageHeight: real, labels: seq<string>): (r: seq<Option<Detection>>)
    requires |batch| >= OutputRows
    ensures |r| == |batch[0]|
    ensures forall i :: 0 <= i < |r| ==> r[i] == DecodeSlot(batch, i, imageWidth, imageHeight, labels)
  {
    seq(|batch[0]|, i requires 0 <= i < |batch[0]| => DecodeSlot(batch, i, imageWidth, imageHeight, labels))
  }

  /** The detections the slot loop appends, given what each slot decodes to. */
  function Kept(results: seq<Option<Detection>>): (r: seq<Detection>)
    ensures |r| <= |results|
  {
    if results == [] then []
    else
      var previous := Kept(results[..|results| - 1]);
      match results[|results| - 1]
      case None => previous
      case Some(d) => previous + [d]
  }

  /** A detection is appended exactly when some slot decodes to it. */
  lemma {:induction false} KeptFromSlots(results: seq<Option<Detection>>, d: Detection)
    ensures d in Kept(results) <==> exists i :: 0 <= i < |results| && results[i] == Some(d)
  {
    if results != [] {
      var front := results[..|results| - 1];
      KeptFromSlots(front, d);
      if d in Kept(front) {
        var i :| 0 <= i < |front| && front[i] == Some(d);
        assert results[i] == Some(d);
      }
      if exists i :: 0 <= i < |results| && results[i] == Some(d) {
        var i :| 0 <= i < |results| && results[i] == Some(d);
        if i < |front| {
          assert front[i] == Some(d);
        }
      }
    }
  }

  /** When every decoded slot is emittable, so is every appended detection. */
  lemma {:induction false} KeptEmittable(results: seq<Option<Detection>>, imageWidth: real, imageHeight: real)
    requires forall i :: 0 <= i < |results| && results[i].Some? ==> Emittable(results[i].value, imageWidth, imageHeight)
    ensures forall k :: 0 <= k < |Kept(results)| ==> Emittable(Kept(results)[k], imageWidth, imageHeight)
  {
    if results != [] {
      var front := results[..|results| - 1];
      assert forall i :: 0 <= i < |front| ==> front[i] == results[i];
      KeptEmittable(front, imageWidth, imageHeight);
    }
  }

  lemma SlotResultsEmittable(batch: seq<seq<real>>, imageWidth: real, imageHeight: real, labels: seq<string>)
    requires |batch| >= OutputRows
    ensures var results := SlotResults(batch, imageWidth, imageHeight, labels);
      forall i :: 0 <= i < |results| && results[i].Some? ==> Emittable(results[i].value, imageWidth, imageHeight)
  {
    forall i | 0 <= i < |batch[0]|
      ensures var r := DecodeSlot(batch, i, imageWidth, imageHeight, labels);
        r.Some? ==> Emittable(r.value, imageWidth, imageHeight)
    {
      DecodeSlotSound(batch, i, imageWidth, imageHeight, labels);
    }
  }

  /** All detections of the batch before suppression; none when the batch has fewer than 8 rows. */
  function Candidates(batch: seq<seq<real>>, imageWidth: int, imageHeight: int, labels: seq<string>): (r: seq<Detection>)
    ensures |batch| < OutputRows ==> r == []
    ensures |batch| >= OutputRows ==> |r| <= |batch[0]|
    ensures forall k :: 0 <= k < |r| ==> Emittable(r[k], imageWidth as real, imageHeight as real)
  {
    if |batch| < OutputRows then []
    else
      var w, h := imageWidth as real, imageHeight as real;
      SlotResultsEmittable(batch, w, h, labels);
      KeptEmittable(SlotResults(batch, w, h, labels), w, h);
      Kept(SlotResults(batch, w, h, labels))
  }

  /** The candidates are exactly the decodings of the slots. */
  lemma CandidatesFromSlots(batch: seq<seq<real>>, imageWidth: int, imageHeight: int, labels: seq<string>, d: Detection)
    requires |batch| >= OutputRows
    ensures var w, h := imageWidth as real, imageHeight as real;
      d in Candidates(batch, imageWidth, imageHeight, labels) <==>
      exists i :: 0 <= i < |batch[0]| && DecodeSlot(batch, i, w, h, labels) == Some(d)
  {
    var w, h := imageWidth as real, imageHeight as real;
    KeptFromSlots(SlotResults(batch, w, h, labels), d);
  }

  /** The inner loop over classes 1..3: the first index of the highest score, and that score. */
  method FindBestClass(batch: seq<seq<real>>, i: nat) returns (maxClassIndex: nat, maxClassScore: real)
    requires |batch| >= OutputRows
    requires ScoresReadable(batch, i)
    ensures maxClassIndex == BestClass(ClassScores(batch, i))
    ensures maxClassScore == ClassScores(batch, i)[maxClassIndex]
  {
    ghost var scores := ClassScores(batch, i);
    maxClassIndex := 0;
    maxClassScore := batch[4][i];
    for classIdx := 1 to NumClasses
      invariant maxClassIndex == BestClass(scores[..classIdx])
      invariant maxClassIndex < classIdx && maxClassScore == scores[maxClassIndex]
    {
      assert scores[..classIdx + 1][..classIdx] == scores[..classIdx];
      var classScore := batch[4 + classIdx][i];
      if classScore > maxClassScore {
        maxClassScore := classScore;
        maxClassIndex := classIdx;
      }
    }
    assert scores[..NumClasses] == scores;
  }

  /**
   * The body of the slot loop (its `try` block): the checks in source order,
   * each failure skipping the slot.
   */
  method DecodeSlotAt(batch: seq<seq<real>>, i: nat, imageWidth: real, imageHeight: real, labels: seq<string>)
    returns (detection: Option<Detection>)
    requires |batch| >= OutputRows && i < |batch[0]|
    ensures detection == DecodeSlot(batch, i, imageWidth, imageHeight, labels)
  {
    // reading a class-score row shorter than the slot throws; the slot is skipped
    if !ScoresReadable(batch, i) {
      return None;
    }
    var maxClassIndex, maxClassScore := FindBestClass(batch, i);
    if maxClassScore < ConfidenceThreshold {
      return None;
    }
    if maxClassScore < LowScoreFloor {
      return None;
    }
    // reading a box row shorter than the slot throws; the slot is skipped
    if !BoxReadable(batch, i) {
      return None;
    }
    var box := PixelBox(batch[0][i] * imageWidth, batch[1][i] * imageHeight,
                        batch[2][i] * imageWidth, batch[3][i] * imageHeight, imageWidth, imageHeight);
    if box.None? {
      return None;
    }
    return Some(Detection(box.value, LabelFor(maxClassIndex, labels), maxClassScore));
  }

  /** The decoding loop of `postProcessOnnxOutput` (before suppression). */
  method DecodeOutput(batch: seq<seq<real>>, imageWidth: int, imageHeight: int, labels: seq<string>)
    returns (detections: seq<Detection>)
    ensures detections == Candidates(batch, imageWidth, imageHeight, labels)
  {
    detections := [];
    if |batch| < OutputRows {
      return;
    }
    var w, h := imageWidth as real, imageHeight as real;
    ghost var results := SlotResults(batch, w, h, labels);
    var numDetections := |batch[0]|;
    for i := 0 to numDetections
      invariant detections == Kept(results[..i])
    {
      assert results[..i + 1][..i] == results[..i];
      var detection := DecodeSlotAt(batch, i, w, h, labels);
      if detection.Some? {
        detections := detections + [detection.value];
      }
    }
    assert results[..numDetections] == results;
  }

  /**
   * One slot, scores (0.9, 0.1, 0.1, 0.1), centre (0.5, 0.5), size (0.1, 0.1),
   * on a 640 x 640 image: one detection of class 0 with confidence 0.9 and the
   * 64 x 64 box from (288, 288) to (352, 352).
   */
  lemma SingleSlotExample(labels: seq<string>)
    ensures Candidates([[0.5], [0.5], [0.1], [0.1], [0.9], [0.1], [0.1], [0.1]], 640, 640, labels)
         == [Detection(Box(288.0, 288.0, 352.0, 352.0), LabelFor(0, labels), 0.9)]
  {
    var batch := [[0.5], [0.5], [0.1], [0.1], [0.9], [0.1], [0.1], [0.1]];
    var scores := ClassScores(batch, 0);
    assert scores == [0.9, 0.1, 0.1, 0.1];
    var c := BestClass(scores);
    assert scores[c] >= scores[0];
    assert c == 0;
    var results := SlotResults(batch, 640.0, 640.0, labels);
    assert results == [results[0]];
    assert results[..0] == [];
  }
}
