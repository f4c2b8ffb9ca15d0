/**
 * The detector object: its session state and label table, the guard at the
 * top of `detect`, the tensor reads before post-processing, and `close`.
 * The ONNX environment and session are modelled by whether they are present;
 * the model file, the inference run and the clock are parameters.
 */
module Detector {
  import opened Wrappers
  import opened Geometry
  import opened DetectionResult
  import opened Labels
  import opened Decoder
  import opened Suppression

  /** What `postProcessOnnxOutput` returns for a non-empty output tensor. */
  function PostProcess(output: seq<seq<seq<real>>>, imageWidth: int, imageHeight: int, labels: seq<string>): seq<Detection>
    requires |output| > 0
  {
    Nms(Candidates(output[0], imageWidth, imageHeight, labels))
  }

  /** Decoding followed by suppression, on the first batch of the tensor. */
  method PostProcessOnnxOutput(output: seq<seq<seq<real>>>, imageWidth: int, imageHeight: int, labels: seq<string>)
    returns (detections: seq<Detection>)
    requires |output| > 0
    ensures detections == PostProcess(output, imageWidth, imageHeight, labels)
  {
    var decoded := DecodeOutput(output[0], imageWidth, imageHeight, labels);
    detections := ApplyNms(decoded);
  }

  /**
   * What the pipeline promises of its result: every detection has confidence
   * at least 0.5 and a box clamped into the image with both sides between 50
   * and min(0.3 W, 0.3 H); the list is in non-increasing confidence order; no
   * two boxes overlap by more than 0.3; and a batch of fewer than 8 rows gives
   * no detections.
   */
  lemma PostProcessSound(output: seq<seq<seq<real>>>, imageWidth: int, imageHeight: int, labels: seq<string>)
    requires |output| > 0
    ensures var r := PostProcess(output, imageWidth, imageHeight, labels);
      (forall k :: 0 <= k < |r| ==> Emittable(r[k], imageWidth as real, imageHeight as real)) &&
      Descending(r) && Separated(r) &&
      (|output[0]| < OutputRows ==> r == [])
  {
    var candidates := Candidates(output[0], imageWidth, imageHeight, labels);
    var r := Nms(candidates);
    NmsDescending(candidates);
    NmsSeparated(candidates);
    forall k | 0 <= k < |r|
      ensures Emittable(r[k], imageWidth as real, imageHeight as real)
    {
      NmsSubsequenceOfSort(candidates);
      var sorted := SortByConfidence(candidates);
      var idx :| PicksAt(r, sorted, idx);
      SortSound(candidates);
      assert r[k] == sorted[idx[k]];
      assert r[k] in multiset(candidates);
    }
  }

  /** The model file and session creation, abstracted to their outcome. */
  datatype ModelLoad =
    | LoadFailed          // the asset read or `createSession` throws
    | Loaded              // the session is created and its input/output description is readable
    | DescriptionFailed   // the session is created, then reading its description throws

  class YoloDetector {
    var hasEnvironment: bool
    var hasSession: bool
    var isInitialized: bool
    var labels: seq<string>

    /** The guard of `detect`: initialised, with a session and an environment. */
    predicate Ready()
      reads this
    {
      isInitialized && hasSession && hasEnvironment
    }

    /**
     * Construction runs `initializeModel`: the environment is obtained, then the
     * session is created and the label table loaded; the detector is ready only
     * when nothing after that throws.
     */
    constructor (model: ModelLoad, metadata: Option<seq<string>>)
      ensures hasEnvironment
      ensures hasSession <==> model != LoadFailed
      ensures isInitialized <==> model == Loaded
      ensures model != LoadFailed ==> labels == LabelTable(metadata)
      ensures model == LoadFailed ==> labels == []
    {
      var table := [];
      if model != LoadFailed {
        table := LoadLabels(metadata);
      }
      hasEnvironment := true;
      hasSession := model != LoadFailed;
      labels := table;
      isInitialized := model == Loaded;
    }

    /**
     * `detect` on an inference outcome: `None` for a run that throws. The
     * result is null when the detector is not ready, when the run throws, or
     * when the output has no batch or its batch no row (the shape is read
     * before post-processing); otherwise the post-processed detections with
     * the image size and the time taken.
     */
    method Detect(output: Option<seq<seq<seq<real>>>>, imageWidth: int, imageHeight: int, elapsedMillis: int)
      returns (result: Option<DetectionBatch>)
      ensures !Ready() ==> result == None
      ensures Ready() && (output.None? || output.value == [] || output.value[0] == []) ==> result == None
      ensures Ready() && output.Some? && output.value != [] && output.value[0] != [] ==>
        result == Some(DetectionBatch(PostProcess(output.value, imageWidth, imageHeight, labels),
                                      elapsedMillis, imageWidth, imageHeight))
    {
      if !isInitialized || !hasSession || !hasEnvironment {
        return None;
      }
      if output.None? {
        return None;
      }
      var outputTensor := output.value;
      if |outputTensor| == 0 || |outputTensor[0]| == 0 {
        return None;
      }
      var detections := PostProcessOnnxOutput(outputTensor, imageWidth, imageHeight, labels);
      return Some(DetectionBatch(detections, elapsedMillis, imageWidth, imageHeight));
    }

    /**
     * `close`: the session is released and dropped, the environment reference
     * cleared and the detector marked uninitialised; when releasing the session
     * throws, nothing changes.
     */
    method Close(releaseFails: bool)
      modifies this
      ensures labels == old(labels)
      ensures old(hasSession) && releaseFails ==>
        hasSession == old(hasSession) && hasEnvironment == old(hasEnvironment) && isInitialized == old(isInitialized)
      ensures !(old(hasSession) && releaseFails) ==> !hasSession && !hasEnvironment && !isInitialized
    {
      if hasSession && releaseFails {
        return;
      }
      hasSession := false;
      hasEnvironment := false;
      isInitialized := false;
    }
  }

  /** A detector whose model fails to load never detects. */
  method FailedLoadNeverDetects(metadata: Option<seq<string>>, output: Option<seq<seq<seq<real>>>>)
    returns (result: Option<DetectionBatch>)
    ensures result == None
  {
    var detector := new YoloDetector(LoadFailed, metadata);
    result := detector.Detect(output, 640, 480, 0);
  }

  /** After a successful `close`, `detect` returns null whatever the output. */
  method DetectAfterClose(metadata: Option<seq<string>>, output: Option<seq<seq<seq<real>>>>)
    returns (before: Option<DetectionBatch>, after: Option<DetectionBatch>)
    ensures output.Some? && output.value != [] && output.value[0] != [] ==> before.Some?
    ensures after == None
  {
    var detector := new YoloDetector(Loaded, metadata);
    before := detector.Detect(output, 640, 480, 0);
    detector.Close(false);
    after := detector.Detect(output, 640, 480, 0);
  }
}
