/**
 * The values the detector hands to its callers: one labelled, scored box,
 * and one frame's batch of them with the image size and inference time.
 */
module DetectionResult {
  import opened Geometry

  datatype Detection = Detection(boundingBox: Box, labelName: string, confidence: real)

  datatype DetectionBatch = DetectionBatch(
    detections: seq<Detection>,
    inferenceTime: int,
    imageWidth: int,
    imageHeight: int)
}
