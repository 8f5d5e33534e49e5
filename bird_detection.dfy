/**
 * `loadModel` and `processImage`: the detector session is created once and cached; an
 * image is preprocessed, run through the detector, its rows decoded into candidate
 * detections, the candidates sorted by descending confidence and thinned by
 * non-maximum suppression, and an empty outcome replaced by a single "unknown" entry.
 */
module BirdDetection {
  import opened Wrappers
  import opened Box
  import opened Detections
  import opened Decode
  import Pixels
  import Preprocess
  import Sorting
  import Greedy
  import Nms

  /** A loaded detector session, known here only by the model it was created from. */
  datatype Session = Session(modelPath: string)

  /** The error `loadModel` raises when the session cannot be created. */
  const LoadFailure: string := "Falha ao carregar o modelo de detecção"

  /** The module-level `session` variable and `loadModel`, which fills it on first use. */
  class ModelLoader {
    var session: Option<Session>

    constructor()
      ensures session == None
    {
      session := None;
    }

    /** `create` is the outcome of creating the session from the model file; it is only
        consulted while no session is cached. */
    method LoadModel(create: Result<Session, string>) returns (r: Result<Session, string>)
      modifies this
      ensures old(session).Some? ==> session == old(session) && r == Ok(old(session).value)
      ensures old(session).None? && create.Ok? ==> session == Some(create.value) && r == Ok(create.value)
      ensures old(session).None? && create.Err? ==> session == None && r == Err(LoadFailure)
    {
      if session.None? {
        match create
        case Ok(s) =>
          session := Some(s);
        case Err(_) =>
          return Err(LoadFailure);
      }
      r := Ok(session.value);
    }
  }

  /** The value returned after the suppression: the kept detections, or the single
      "unknown" detection when none was kept. */
  function Finalize(finalDetections: seq<BirdDetectionResult>, detectionTime: string): (r: seq<BirdDetectionResult>)
    ensures |r| > 0
    ensures |finalDetections| > 0 ==> r == finalDetections
    ensures |finalDetections| == 0 ==> r == [UnknownDetection(detectionTime)]
  {
    if |finalDetections| > 0 then finalDetections else [UnknownDetection(detectionTime)]
  }

  /** What `processImage` returns for the list of candidates its decode loop builds. */
  function PostProcess(rawDetections: seq<BirdDetectionResult>, detectionTime: string): seq<BirdDetectionResult>
  {
    Finalize(Nms.Suppressed(Sorting.SortDesc(rawDetections, Confidence)), detectionTime)
  }

  /** What `processImage` returns for the detector output `predictions`. */
  function Detect(predictions: seq<real>, exp: real -> PositiveReal, detectionTime: string): seq<BirdDetectionResult>
    requires |predictions| % RowLength == 0
  {
    PostProcess(Candidates(predictions, |predictions| / RowLength, exp, detectionTime), detectionTime)
  }

  /** `processImage` once the image is downloaded and resized: `enhanced` is the
      interleaved RGB buffer of the resized image, and `predictions` what the session
      computes for the tensor built from it, or the error that the download, the image
      library or the session threw, which the `catch` rethrows unchanged. A session
      created on the way stays cached even when a later step throws. */
  method ProcessImage(loader: ModelLoader, create: Result<Session, string>, enhanced: seq<Pixels.Byte>,
                      predictions: Result<seq<real>, string>, exp: real -> PositiveReal, detectionTime: string)
    returns (r: Result<seq<BirdDetectionResult>, string>)
    requires |enhanced| == Preprocess.TensorSize
    requires predictions.Ok? ==> |predictions.value| % RowLength == 0
    modifies loader
    ensures loader.session == if old(loader.session).Some? then old(loader.session)
                              else if create.Ok? then Some(create.value) else None
    ensures r.Err? <==> (old(loader.session).None? && create.Err?) || predictions.Err?
    ensures old(loader.session).None? && create.Err? ==> r == Err(LoadFailure)
    ensures (old(loader.session).Some? || create.Ok?) && predictions.Err? ==> r == Err(predictions.error)
    ensures r.Ok? ==> r.value == Detect(predictions.value, exp, detectionTime)
  {
    var inferenceSession := loader.LoadModel(create);
    if inferenceSession.Err? {
      return Err(inferenceSession.error);
    }
    var preprocessedData := Preprocess.PreprocessImage(enhanced);
    if predictions.Err? {
      return Err(predictions.error);
    }
    var rawDetections := DecodePredictions(predictions.value, exp, detectionTime);
    var sorted := Sorting.SortDesc(rawDetections, Confidence);
    var finalDetections := Nms.Suppress(sorted);
    r := Ok(Finalize(finalDetections, detectionTime));
  }

  /** The result is the "unknown" detection exactly when there was no candidate; otherwise
      every returned detection is one of the candidates. */
  lemma PostProcessFallback(rawDetections: seq<BirdDetectionResult>, detectionTime: string)
    requires forall d :: d in rawDetections ==> d.species == DetectedSpecies
    ensures PostProcess(rawDetections, detectionTime) == [UnknownDetection(detectionTime)] <==> |rawDetections| == 0
    ensures forall d :: d in PostProcess(rawDetections, detectionTime) && |rawDetections| > 0 ==> d in rawDetections
  {
    var sorted := Sorting.SortDesc(rawDetections, Confidence);
    var kept := Nms.Suppressed(sorted);
    Sorting.SortDescPermutes(rawDetections, Confidence);
    if |rawDetections| > 0 {
      Nms.SuppressedKeepsFirst(sorted);
      Greedy.KeepSubsequence(sorted, Nms.Conflicts);
      var ix := Greedy.Positions(sorted, Nms.Conflicts);
      forall d | d in kept ensures d in rawDetections {
        var k :| 0 <= k < |kept| && kept[k] == d;
        assert d == sorted[ix[k]];
        assert d in multiset(sorted);
      }
      assert kept[0] in rawDetections;
    }
  }

  /** The first returned detection is the first candidate of highest confidence. */
  lemma PostProcessHead(rawDetections: seq<BirdDetectionResult>, detectionTime: string) returns (b: nat)
    requires |rawDetections| > 0
    ensures b < |rawDetections| && PostProcess(rawDetections, detectionTime)[0] == rawDetections[b]
    ensures forall j :: 0 <= j < |rawDetections| ==> rawDetections[j].confidence <= rawDetections[b].confidence
    ensures forall j :: 0 <= j < b ==> rawDetections[j].confidence < rawDetections[b].confidence
  {
    b := Sorting.SortDescHead(rawDetections, Confidence);
    Nms.SuppressedKeepsFirst(Sorting.SortDesc(rawDetections, Confidence));
  }

  /** The returned detections come in order of descending confidence. */
  lemma PostProcessSorted(rawDetections: seq<BirdDetectionResult>, detectionTime: string)
    ensures Sorting.SortedDesc(PostProcess(rawDetections, detectionTime), Confidence)
  {
    var sorted := Sorting.SortDesc(rawDetections, Confidence);
    Sorting.SortDescSorted(rawDetections, Confidence);
    Nms.SuppressedSorted(sorted);
  }

  /** No two returned boxes overlap with an IoU above the threshold. */
  lemma PostProcessSeparated(rawDetections: seq<BirdDetectionResult>, detectionTime: string, k: nat, l: nat)
    requires k < |PostProcess(rawDetections, detectionTime)| && l < |PostProcess(rawDetections, detectionTime)|
    requires k != l
    ensures ComputeIoU(PostProcess(rawDetections, detectionTime)[k].boundingBox,
                       PostProcess(rawDetections, detectionTime)[l].boundingBox) <= NmsIoUThreshold
  {
    Nms.SuppressedSeparated(Sorting.SortDesc(rawDetections, Confidence), k, l);
  }

  /** Every candidate is returned, or is suppressed by a returned detection at least as
      confident whose box it overlaps with an IoU above the threshold. */
  lemma PostProcessCovers(rawDetections: seq<BirdDetectionResult>, detectionTime: string, d: BirdDetectionResult)
    requires d in rawDetections
    ensures d in PostProcess(rawDetections, detectionTime) ||
      exists e :: e in PostProcess(rawDetections, detectionTime) && e.confidence >= d.confidence &&
        ComputeIoU(d.boundingBox, e.boundingBox) > NmsIoUThreshold
  {
    var sorted := Sorting.SortDesc(rawDetections, Confidence);
    Sorting.SortDescPermutes(rawDetections, Confidence);
    assert d in multiset(sorted);
    var i :| 0 <= i < |sorted| && sorted[i] == d;
    Nms.SuppressedKeepsFirst(sorted);
    Sorting.SortDescSorted(rawDetections, Confidence);
    Nms.SuppressedCovers(sorted, i);
  }

  /** For a detector output: the single "unknown" result is returned exactly when no row
      passes the decode tests, and otherwise every result is a bird detection above the
      confidence threshold with an in-bounds box of sufficient size. */
  lemma DetectMeaning(predictions: seq<real>, exp: real -> PositiveReal, detectionTime: string)
    requires |predictions| % RowLength == 0
    ensures Detect(predictions, exp, detectionTime) == [UnknownDetection(detectionTime)] <==>
      |Candidates(predictions, |predictions| / RowLength, exp, detectionTime)| == 0
    ensures |Candidates(predictions, |predictions| / RowLength, exp, detectionTime)| > 0 ==>
      forall d :: d in Detect(predictions, exp, detectionTime) ==> IsCandidate(d, detectionTime)
  {
    var n := |predictions| / RowLength;
    var c := Candidates(predictions, n, exp, detectionTime);
    CandidatesAreBirds(predictions, n, exp, detectionTime);
    PostProcessFallback(c, detectionTime);
  }
}
