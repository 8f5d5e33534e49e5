/** The detection record the backend returns, and the constants of its pipeline. */
module Detections {
  import opened Box

  datatype Metadata = Metadata(
    modelVersion: string,
    speciesConfidence: real,
    detectionTime: string,
    originalClass: string)

  datatype BirdDetectionResult = BirdDetectionResult(
    species: string,
    confidence: real,
    boundingBox: BoundingBox,
    metadata: Metadata)

  const ModelInputSize: int := 640
  const ConfidenceThreshold: real := 0.3
  const NmsIoUThreshold: real := 0.45
  /** The position of 'bird' among the 80 COCO classes. */
  const BirdClassIndex: int := 14
  /** 4 box values, 1 objectness value and 80 class scores. */
  const RowLength: int := 85
  const NumClasses: int := 80
  /** The smallest relative area a detection may cover. */
  const MinBirdSize: real := 0.01

  const DetectedSpecies: string := "Ave"
  const DetectionModelVersion: string := "1.0.0-yolov8-coco"
  const DetectionOriginalClass: string := "bird"

  /** The sort key of `rawDetections.sort((a, b) => b.confidence - a.confidence)`. */
  function Confidence(d: BirdDetectionResult): real { d.confidence }

  /** The single result returned when nothing is detected. */
  function UnknownDetection(detectionTime: string): BirdDetectionResult
  {
    BirdDetectionResult("Desconhecido", 0.0, BoundingBox(0.0, 0.0, 1.0, 1.0),
      Metadata("1.0.0-yolov8", 0.0, detectionTime, "unknown"))
  }
}
