/**
 * The in-browser detector hook: `processFrame` copies the 640x640 canvas into the input
 * tensor, runs the detector, keeps the rows whose objectness is above 0.5 and returns
 * the first of them scaled to the video; `startDetection` repeats it on every animation
 * frame until its cleanup runs, and `stopDetection` cancels the pending frame.
 */
module LiveDetection {
  import opened Wrappers
  import opened Box
  import Pixels
  import Sorting
  import Selection

  /** The smallest gap, in milliseconds, between two processed frames. */
  const MinInterval: int := 500
  const ObjectnessThreshold: real := 0.5
  /** The reused canvas is 640 by 640 pixels. */
  const CanvasSize: int := 640
  const FrameSpecies: string := "Ave"

  /** A kept detector row: its first best class, its objectness and its `[x, y, w, h]`. */
  datatype YoloPrediction = YoloPrediction(classLabel: int, confidence: real, bbox: BoundingBox)

  /** What `processFrame` hands to the caller. */
  datatype FrameDetection = FrameDetection(species: string, confidence: real, bbox: BoundingBox)

  // The RGBA to RGB copy

  /** The input tensor filled from RGBA canvas bytes: three normalised values per pixel,
      in pixel order, the alpha byte dropped. */
  function RgbOf(data: seq<Pixels.Byte>): (r: seq<real>)
    ensures |r| == |data| / 4 * 3
  {
    seq(|data| / 4 * 3, k requires 0 <= k < |data| / 4 * 3 => Pixels.Normalize(data[k / 3 * 4 + k % 3]))
  }

  /** Slot `3i + c` of the tensor is channel `c` of pixel `i`: the layout is interleaved,
      although the tensor is declared with shape `[1, 3, height, width]`. */
  lemma RgbOfChannels(data: seq<Pixels.Byte>, i: int, c: int)
    requires 0 <= i < |data| / 4 && 0 <= c < 3
    ensures 3 * i + c < |RgbOf(data)| && RgbOf(data)[3 * i + c] == Pixels.Normalize(data[4 * i + c])
  {
    assert (3 * i + c) / 3 == i && (3 * i + c) % 3 == c;
  }

  /** The alpha bytes are never read: canvases that agree on the colour bytes give the
      same tensor. */
  lemma RgbOfIgnoresAlpha(data: seq<Pixels.Byte>, data': seq<Pixels.Byte>)
    requires |data| == |data'|
    requires forall j :: 0 <= j < |data| && j % 4 != 3 ==> data[j] == data'[j]
    ensures RgbOf(data) == RgbOf(data')
  {
    forall k | 0 <= k < |RgbOf(data)| ensures RgbOf(data)[k] == RgbOf(data')[k] {
      var j := k / 3 * 4 + k % 3;
      assert j % 4 == k % 3;
    }
  }

  /** Channel `c` of pixel `j`, normalised. */
  function PixelChannel(data: seq<Pixels.Byte>, j: int, c: int): real
    requires 0 <= 4 * j + c < |data|
  {
    Pixels.Normalize(data[4 * j + c])
  }

  /** The copy loop into `new Float32Array(width * height * 3)`. */
  method RgbaToRgb(data: seq<Pixels.Byte>, width: nat, height: nat) returns (input: array<real>)
    requires |data| == 4 * (width * height)
    ensures fresh(input)
    ensures input.Length == width * height * 3
    ensures input[..] == RgbOf(data)
  {
    input := new real[width * height * 3];
    var pixels := width * height;
    var i := 0;
    while i < pixels
      invariant 0 <= i <= pixels
      invariant forall j, c :: 0 <= j < i && 0 <= c < 3 ==> input[3 * j + c] == PixelChannel(data, j, c)
    {
      input[i * 3] := Pixels.Normalize(data[i * 4]);
      input[i * 3 + 1] := Pixels.Normalize(data[i * 4 + 1]);
      input[i * 3 + 2] := Pixels.Normalize(data[i * 4 + 2]);
      i := i + 1;
    }
    RgbOfPixels(data, input[..]);
  }

  /** A tensor holding the three channels of every pixel at `3j + c` is `RgbOf(data)`. */
  lemma RgbOfPixels(data: seq<Pixels.Byte>, input: seq<real>)
    requires |input| == |data| / 4 * 3
    requires forall j, c :: 0 <= j < |data| / 4 && 0 <= c < 3 ==> input[3 * j + c] == PixelChannel(data, j, c)
    ensures input == RgbOf(data)
  {
    forall k | 0 <= k < |input| ensures input[k] == RgbOf(data)[k] {
      var j, c := k / 3, k % 3;
      RgbOfChannels(data, j, c);
      assert input[3 * j + c] == PixelChannel(data, j, c);
    }
  }

  // The decode of the detector output

  /** Row `i` of `rowLength` values lies inside `predictions`. */
  predicate RowFits(predictions: seq<real>, rowLength: int, i: int)
  {
    rowLength >= 5 && 0 <= i && 0 <= i * rowLength && i * rowLength + rowLength <= |predictions|
  }

  lemma RowsFit(predictions: seq<real>, numDetections: nat, rowLength: int)
    requires numDetections * rowLength == |predictions| && rowLength >= 5
    ensures forall i :: 0 <= i < numDetections ==> RowFits(predictions, rowLength, i)
  {
    forall i | 0 <= i < numDetections ensures RowFits(predictions, rowLength, i) {
      assert i * rowLength + rowLength == (i + 1) * rowLength;
      assert (numDetections - (i + 1)) * rowLength >= 0;
    }
  }

  /** `predictions[offset + 4]`. */
  function Objectness(predictions: seq<real>, rowLength: int, i: int): real
    requires RowFits(predictions, rowLength, i)
  {
    predictions[i * rowLength + 4]
  }

  /** The entry pushed for row `i`. */
  function RowPrediction(predictions: seq<real>, rowLength: int, i: int): YoloPrediction
    requires RowFits(predictions, rowLength, i)
  {
    var offset := i * rowLength;
    YoloPrediction(Sorting.FirstArgMax(predictions[offset + 5 .. offset + rowLength]), predictions[offset + 4],
      BoundingBox(predictions[offset], predictions[offset + 1], predictions[offset + 2], predictions[offset + 3]))
  }

  function ObjectnessKept(predictions: seq<real>, rowLength: int): nat -> bool
  {
    i => RowFits(predictions, rowLength, i) && Objectness(predictions, rowLength, i) > ObjectnessThreshold
  }

  lemma ObjectnessKeptMeans(predictions: seq<real>, numDetections: nat, rowLength: int)
    requires numDetections * rowLength == |predictions| && rowLength >= 5
    ensures forall i :: 0 <= i < numDetections ==>
      && RowFits(predictions, rowLength, i)
      && (ObjectnessKept(predictions, rowLength)(i) <==> Objectness(predictions, rowLength, i) > ObjectnessThreshold)
  {
    RowsFit(predictions, numDetections, rowLength);
  }

  function RowMaker(predictions: seq<real>, rowLength: int): nat --> YoloPrediction
  {
    i requires RowFits(predictions, rowLength, i) => RowPrediction(predictions, rowLength, i)
  }

  /** The numbers of the rows whose objectness is above the threshold, in order. */
  function KeptRowNumbers(predictions: seq<real>, numDetections: nat, rowLength: int): seq<nat>
  {
    Selection.Select(numDetections, ObjectnessKept(predictions, rowLength))
  }

  /** `detections` once the loop over the rows is done. */
  function KeptPredictions(predictions: seq<real>, numDetections: nat, rowLength: int): seq<YoloPrediction>
    requires numDetections * rowLength == |predictions| && rowLength >= 5
  {
    RowsFit(predictions, numDetections, rowLength);
    Selection.Collect(numDetections, ObjectnessKept(predictions, rowLength), RowMaker(predictions, rowLength))
  }

  /** The loop over the rows; `numDetections` and `rowLength` are the row count and row
      width of the detector output. */
  method DecodeRows(predictions: seq<real>, numDetections: nat, rowLength: int)
    returns (detections: seq<YoloPrediction>)
    requires numDetections * rowLength == |predictions| && rowLength >= 5
    ensures detections == KeptPredictions(predictions, numDetections, rowLength)
  {
    RowsFit(predictions, numDetections, rowLength);
    detections := [];
    var i := 0;
    while i < numDetections
      invariant 0 <= i <= numDetections
      invariant detections == Selection.Collect(i, ObjectnessKept(predictions, rowLength), RowMaker(predictions, rowLength))
    {
      DecodeStep(predictions, rowLength, i);
      var offset := i * rowLength;
      RowAt(predictions, rowLength, i, offset);
      var confidence := predictions[offset + 4];
      if confidence > ObjectnessThreshold {
        var bbox := BoundingBox(predictions[offset], predictions[offset + 1], predictions[offset + 2], predictions[offset + 3]);
        var classScores := predictions[offset + 5 .. offset + rowLength];
        var classIndex := Sorting.FirstArgMax(classScores);
        detections := detections + [YoloPrediction(classIndex, confidence, bbox)];
      }
      i := i + 1;
    }
  }

  /** Row `i` read at `offset = i * rowLength`. */
  lemma RowAt(predictions: seq<real>, rowLength: int, i: int, offset: int)
    requires RowFits(predictions, rowLength, i) && offset == i * rowLength
    ensures 0 <= offset && offset + rowLength <= |predictions|
    ensures Objectness(predictions, rowLength, i) == predictions[offset + 4]
    ensures RowPrediction(predictions, rowLength, i) == YoloPrediction(
      Sorting.FirstArgMax(predictions[offset + 5 .. offset + rowLength]), predictions[offset + 4],
      BoundingBox(predictions[offset], predictions[offset + 1], predictions[offset + 2], predictions[offset + 3]))
  {
  }

  /** One more iteration of the loop over the rows. */
  lemma DecodeStep(predictions: seq<real>, rowLength: int, i: nat)
    requires forall j :: 0 <= j <= i ==> RowFits(predictions, rowLength, j)
    ensures Objectness(predictions, rowLength, i) > ObjectnessThreshold ==>
      Selection.Collect(i + 1, ObjectnessKept(predictions, rowLength), RowMaker(predictions, rowLength)) ==
      Selection.Collect(i, ObjectnessKept(predictions, rowLength), RowMaker(predictions, rowLength)) +
        [RowPrediction(predictions, rowLength, i)]
    ensures Objectness(predictions, rowLength, i) <= ObjectnessThreshold ==>
      Selection.Collect(i + 1, ObjectnessKept(predictions, rowLength), RowMaker(predictions, rowLength)) ==
      Selection.Collect(i, ObjectnessKept(predictions, rowLength), RowMaker(predictions, rowLength))
  {
  }

  /** The kept entries are, in increasing row order, the rows whose objectness is above
      the threshold, and no others. */
  lemma KeptPredictionsMeaning(predictions: seq<real>, numDetections: nat, rowLength: int, i: nat)
    requires numDetections * rowLength == |predictions| && rowLength >= 5
    requires i < numDetections
    ensures |KeptPredictions(predictions, numDetections, rowLength)| == |KeptRowNumbers(predictions, numDetections, rowLength)|
    ensures forall k :: 0 <= k < |KeptRowNumbers(predictions, numDetections, rowLength)| ==>
      && KeptRowNumbers(predictions, numDetections, rowLength)[k] < numDetections
      && RowFits(predictions, rowLength, KeptRowNumbers(predictions, numDetections, rowLength)[k])
      && KeptPredictions(predictions, numDetections, rowLength)[k] ==
         RowPrediction(predictions, rowLength, KeptRowNumbers(predictions, numDetections, rowLength)[k])
    ensures forall k, l :: 0 <= k < l < |KeptRowNumbers(predictions, numDetections, rowLength)| ==>
      KeptRowNumbers(predictions, numDetections, rowLength)[k] < KeptRowNumbers(predictions, numDetections, rowLength)[l]
    ensures RowFits(predictions, rowLength, i)
    ensures i in KeptRowNumbers(predictions, numDetections, rowLength) <==>
      Objectness(predictions, rowLength, i) > ObjectnessThreshold
  {
    RowsFit(predictions, numDetections, rowLength);
    Selection.CollectSelect(numDetections, ObjectnessKept(predictions, rowLength), RowMaker(predictions, rowLength));
    Selection.SelectIncreasing(numDetections, ObjectnessKept(predictions, rowLength));
    Selection.SelectExactly(numDetections, ObjectnessKept(predictions, rowLength), i);
  }

  /** The label of a row with class scores is the position of the first largest score. */
  lemma RowLabelIsFirstBest(predictions: seq<real>, rowLength: int, i: int)
    requires RowFits(predictions, rowLength, i) && rowLength > 5
    ensures var scores := predictions[i * rowLength + 5 .. i * rowLength + rowLength];
      var top := RowPrediction(predictions, rowLength, i).classLabel;
      && 0 <= top < rowLength - 5
      && (forall j :: 0 <= j < |scores| ==> scores[j] <= scores[top])
      && (forall j :: 0 <= j < top ==> scores[j] < scores[top])
  {
    Sorting.FirstArgMaxIsFirstMax(predictions[i * rowLength + 5 .. i * rowLength + rowLength]);
  }

  /** The returned detection: `species: 'Ave'`, the objectness as confidence, and the box
      scaled by the video size. */
  function Scaled(d: YoloPrediction, videoWidth: real, videoHeight: real): FrameDetection
  {
    FrameDetection(FrameSpecies, d.confidence, BoundingBox(d.bbox.x * videoWidth, d.bbox.y * videoHeight,
      d.bbox.width * videoWidth, d.bbox.height * videoHeight))
  }

  /** What a completed frame returns for the detector output: `detections[0]`, scaled. */
  function FrameResult(predictions: seq<real>, numDetections: nat, rowLength: int, videoWidth: real, videoHeight: real)
    : Option<FrameDetection>
    requires numDetections * rowLength == |predictions| && rowLength >= 5
  {
    var detections := KeptPredictions(predictions, numDetections, rowLength);
    if |detections| == 0 then None else Some(Scaled(detections[0], videoWidth, videoHeight))
  }

  /** A frame yields a detection exactly when some row has objectness above 0.5, and then
      it is the FIRST such row, whatever the objectness of the later ones. */
  lemma FrameResultIsFirstKept(predictions: seq<real>, numDetections: nat, rowLength: int,
                               videoWidth: real, videoHeight: real) returns (first: nat)
    requires numDetections * rowLength == |predictions| && rowLength >= 5
    ensures FrameResult(predictions, numDetections, rowLength, videoWidth, videoHeight).None? ==>
      forall i :: 0 <= i < numDetections ==>
        RowFits(predictions, rowLength, i) && Objectness(predictions, rowLength, i) <= ObjectnessThreshold
    ensures FrameResult(predictions, numDetections, rowLength, videoWidth, videoHeight).Some? ==>
      && first < numDetections
      && RowFits(predictions, rowLength, first)
      && Objectness(predictions, rowLength, first) > ObjectnessThreshold
      && (forall j :: 0 <= j < first ==> Objectness(predictions, rowLength, j) <= ObjectnessThreshold)
      && FrameResult(predictions, numDetections, rowLength, videoWidth, videoHeight).value ==
         FrameDetection(FrameSpecies, Objectness(predictions, rowLength, first), BoundingBox(
           predictions[first * rowLength] * videoWidth, predictions[first * rowLength + 1] * videoHeight,
           predictions[first * rowLength + 2] * videoWidth, predictions[first * rowLength + 3] * videoHeight))
  {
    RowsFit(predictions, numDetections, rowLength);
    var rows := KeptRowNumbers(predictions, numDetections, rowLength);
    Selection.CollectSelect(numDetections, ObjectnessKept(predictions, rowLength), RowMaker(predictions, rowLength));
    Selection.SelectFirst(numDetections, ObjectnessKept(predictions, rowLength));
    ObjectnessKeptMeans(predictions, numDetections, rowLength);
    first := if |rows| > 0 then rows[0] else 0;
    if |rows| > 0 {
      assert KeptPredictions(predictions, numDetections, rowLength)[0] == RowPrediction(predictions, rowLength, first);
      ScaledRow(predictions, rowLength, first, videoWidth, videoHeight);
    }
  }

  lemma ScaledRow(predictions: seq<real>, rowLength: int, i: int, videoWidth: real, videoHeight: real)
    requires RowFits(predictions, rowLength, i)
    ensures Scaled(RowPrediction(predictions, rowLength, i), videoWidth, videoHeight) ==
      FrameDetection(FrameSpecies, Objectness(predictions, rowLength, i), BoundingBox(
        predictions[i * rowLength] * videoWidth, predictions[i * rowLength + 1] * videoHeight,
        predictions[i * rowLength + 2] * videoWidth, predictions[i * rowLength + 3] * videoHeight))
  {
  }

  // The refs of the hook and the detection loop

  /** What one call of `processFrame` returns: `started` says that it passed the guards
      and the rate limit, `hasContext` that the canvas gave a 2D context, and `output` is
      the detector output, `None` when the inference threw. */
  function FrameOutcome(started: bool, hasContext: bool, output: Option<seq<real>>, numDetections: nat,
                        rowLength: int, videoWidth: real, videoHeight: real): Option<FrameDetection>
    requires output.Some? ==> numDetections * rowLength == |output.value| && rowLength >= 5
  {
    if started && hasContext && output.Some?
    then FrameResult(output.value, numDetections, rowLength, videoWidth, videoHeight)
    else None
  }

  /** `processFrame` as written. The row count is read as `.dims[0]` on
      `outputs['output0'].data`, a typed array; `dims` belongs to the tensor, not to its
      data, so the read indexes `undefined` and throws a TypeError, which the `catch`
      turns into null. A frame whose inference succeeds therefore yields nothing, like
      the frames that stop earlier. */
  function FrameOutcomeAsWritten(started: bool, hasContext: bool, output: Option<seq<real>>): Option<FrameDetection>
  {
    if started && hasContext && output.Some? then None else None
  }

  /** A one-row output whose objectness is 0.9: the intended outcome is a detection,
      the outcome as written is none. */
  lemma DimsReadLosesDetection()
    ensures FrameOutcome(true, true, Some([0.1, 0.1, 0.2, 0.2, 0.9, 1.0]), 1, 6, 640.0, 480.0).Some?
    ensures FrameOutcomeAsWritten(true, true, Some([0.1, 0.1, 0.2, 0.2, 0.9, 1.0])).None?
  {
    var o := [0.1, 0.1, 0.2, 0.2, 0.9, 1.0];
    var first := FrameResultIsFirstKept(o, 1, 6, 640.0, 480.0);
    assert RowFits(o, 6, 0);
    assert Objectness(o, 6, 0) == 0.9;
  }

  /** The flag of one `startDetection` call, cleared by the cleanup it returns. */
  class Stream {
    var isRunning: bool

    constructor()
      ensures isRunning
    {
      isRunning := true;
    }
  }

  /** `processingRef`, `lastProcessTimeRef` and `frameRef` (0 when no animation frame is
      pending); `processedTimes` records the times of the frames that passed the rate limit. */
  class FrameProcessor {
    var processing: bool
    var lastProcessTime: int
    var frame: nat
    ghost var processedTimes: seq<int>

    /** Processed frames are at least `MinInterval` apart, the last at `lastProcessTime`. */
    ghost predicate Valid()
      reads this
    {
      && (|processedTimes| == 0 ==> lastProcessTime == 0)
      && (|processedTimes| > 0 ==> processedTimes[|processedTimes| - 1] == lastProcessTime)
      && (forall k :: 0 < k < |processedTimes| ==> processedTimes[k] - processedTimes[k - 1] >= MinInterval)
    }

    /** Whether a frame at time `now` gets past the guards and the rate limit. */
    predicate CanStart(ready: bool, now: int)
      reads this
    {
      ready && !processing && now - lastProcessTime >= MinInterval
    }

    constructor()
      ensures Valid()
      ensures !processing && lastProcessTime == 0 && frame == 0 && processedTimes == []
    {
      processing := false;
      lastProcessTime := 0;
      frame := 0;
      processedTimes := [];
    }

    /** The guards of `processFrame` up to `processingRef.current = true`; `ready` says
        that the session, the video and the canvas are present. */
    method BeginFrame(ready: bool, now: int) returns (started: bool)
      requires Valid()
      modifies this
      ensures Valid()
      ensures started == old(CanStart(ready, now))
      ensures started ==> processing && lastProcessTime == now && processedTimes == old(processedTimes) + [now]
      ensures !started ==> processing == old(processing) && lastProcessTime == old(lastProcessTime)
      ensures !started ==> processedTimes == old(processedTimes)
      ensures frame == old(frame)
    {
      if !ready || processing {
        return false;
      }
      if now - lastProcessTime < MinInterval {
        return false;
      }
      lastProcessTime := now;
      processedTimes := processedTimes + [now];
      processing := true;
      started := true;
    }

    /** The `finally` block: `processingRef.current = false`. */
    method EndFrame()
      requires Valid()
      modifies this
      ensures Valid()
      ensures !processing
      ensures lastProcessTime == old(lastProcessTime) && frame == old(frame) && processedTimes == old(processedTimes)
    {
      processing := false;
    }

    /** `processFrame`: `data` is the RGBA content of the 640x640 canvas. */
    method ProcessFrame(ready: bool, now: int, hasContext: bool, data: seq<Pixels.Byte>, output: Option<seq<real>>,
                        numDetections: nat, rowLength: int, videoWidth: real, videoHeight: real)
      returns (r: Option<FrameDetection>)
      requires Valid()
      requires |data| == 4 * (CanvasSize * CanvasSize)
      requires output.Some? ==> numDetections * rowLength == |output.value| && rowLength >= 5
      modifies this
      ensures Valid()
      ensures r == FrameOutcome(old(CanStart(ready, now)), hasContext, output, numDetections, rowLength, videoWidth, videoHeight)
      ensures old(CanStart(ready, now)) ==>
        !processing && lastProcessTime == now && processedTimes == old(processedTimes) + [now]
      ensures !old(CanStart(ready, now)) ==> processing == old(processing) && lastProcessTime == old(lastProcessTime)
      ensures !old(CanStart(ready, now)) ==> processedTimes == old(processedTimes)
      ensures frame == old(frame)
    {
      var started := BeginFrame(ready, now);
      if !started {
        return None;
      }
      if !hasContext {
        EndFrame();
        return None;
      }
      var input := RgbaToRgb(data, CanvasSize, CanvasSize);
      r := None;
      if output.Some? {
        var detections := DecodeRows(output.value, numDetections, rowLength);
        var bestDetection := if |detections| > 0 then Some(detections[0]) else None;
        if bestDetection.Some? {
          r := Some(Scaled(bestDetection.value, videoWidth, videoHeight));
        }
      }
      EndFrame();
    }

    /** One run of `detect` in `startDetection`. `cleanupMeanwhile` says that the
        cleanup ran while the frame was awaited, and `handle` is the id the next
        `requestAnimationFrame` returns. The result is the detection passed to `onDetection`. */
    method Detect(stream: Stream, cleanupMeanwhile: bool, handle: nat, ready: bool, now: int, hasContext: bool,
                  data: seq<Pixels.Byte>, output: Option<seq<real>>, numDetections: nat, rowLength: int,
                  videoWidth: real, videoHeight: real)
      returns (delivered: Option<FrameDetection>)
      requires Valid() && handle > 0
      requires |data| == 4 * (CanvasSize * CanvasSize)
      requires output.Some? ==> numDetections * rowLength == |output.value| && rowLength >= 5
      modifies this, stream
      ensures Valid()
      ensures !old(stream.isRunning) ==> delivered == None && unchanged(this) && unchanged(stream)
      ensures old(stream.isRunning) ==> stream.isRunning == !cleanupMeanwhile
      ensures delivered.Some? ==> stream.isRunning
      ensures old(stream.isRunning) && !cleanupMeanwhile ==>
        delivered == FrameOutcome(old(CanStart(ready, now)), hasContext, output, numDetections, rowLength, videoWidth, videoHeight)
      ensures old(stream.isRunning) ==> frame == (if cleanupMeanwhile then 0 else handle)
      ensures old(stream.isRunning) ==> old(CanStart(ready, now)) ==> lastProcessTime == now
      ensures old(stream.isRunning) ==> !old(CanStart(ready, now)) ==> lastProcessTime == old(lastProcessTime)
    {
      if !stream.isRunning {
        return None;
      }
      var detection := ProcessFrame(ready, now, hasContext, data, output, numDetections, rowLength, videoWidth, videoHeight);
      if cleanupMeanwhile {
        Cleanup(stream);
      }
      delivered := None;
      if detection.Some? && stream.isRunning {
        delivered := detection;
      }
      if stream.isRunning {
        frame := handle;
      }
    }

    /** `startDetection`: a new stream whose first `detect` runs at once. */
    method StartDetection(cleanupMeanwhile: bool, handle: nat, ready: bool, now: int, hasContext: bool,
                          data: seq<Pixels.Byte>, output: Option<seq<real>>, numDetections: nat, rowLength: int,
                          videoWidth: real, videoHeight: real)
      returns (stream: Stream, delivered: Option<FrameDetection>)
      requires Valid() && handle > 0
      requires |data| == 4 * (CanvasSize * CanvasSize)
      requires output.Some? ==> numDetections * rowLength == |output.value| && rowLength >= 5
      modifies this
      ensures fresh(stream) && Valid()
      ensures stream.isRunning == !cleanupMeanwhile
      ensures frame == (if cleanupMeanwhile then 0 else handle)
      ensures !cleanupMeanwhile ==>
        delivered == FrameOutcome(old(CanStart(ready, now)), hasContext, output, numDetections, rowLength, videoWidth, videoHeight)
      ensures cleanupMeanwhile ==> delivered == None
    {
      stream := new Stream();
      delivered := Detect(stream, cleanupMeanwhile, handle, ready, now, hasContext, data, output, numDetections,
        rowLength, videoWidth, videoHeight);
    }

    /** The cleanup returned by `startDetection`. */
    method Cleanup(stream: Stream)
      requires Valid()
      modifies this, stream
      ensures Valid()
      ensures !stream.isRunning && frame == 0
      ensures processing == old(processing) && lastProcessTime == old(lastProcessTime)
      ensures processedTimes == old(processedTimes)
    {
      stream.isRunning := false;
      if frame != 0 {
        frame := 0;
      }
    }

    /** `stopDetection`: cancels the pending frame and touches nothing else. */
    method StopDetection()
      requires Valid()
      modifies this
      ensures Valid()
      ensures frame == 0
      ensures processing == old(processing) && lastProcessTime == old(lastProcessTime)
      ensures processedTimes == old(processedTimes)
    {
      if frame != 0 {
        frame := 0;
      }
    }
  }
}
