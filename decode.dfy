/**
 * The decode loop of `processImage`: the detector's output is a flat array of
 * rows of 85 values (box x, y, w, h, objectness, 80 class scores). Each row's
 * class scores go through a softmax, the first most probable class is taken,
 * and the row becomes a candidate bird detection when that class is 'bird',
 * its confidence is above 0.3, and its box is large enough and inside the image.
 */
module Decode {
  import opened Wrappers
  import opened Box
  import opened Detections
  import Sorting
  import Selection

  /** The values `Math.exp` can take. */
  type PositiveReal = r: real | r > 0.0 witness 1.0

  /** `Math.max(0, Math.min(1, v))`. */
  function Clamp01(v: real): (r: real)
    ensures 0.0 <= r <= 1.0
    ensures 0.0 <= v <= 1.0 ==> r == v
    ensures v < 0.0 ==> r == 0.0
    ensures v > 1.0 ==> r == 1.0
  {
    Max(0.0, Min(1.0, v))
  }

  /** `reduce((a, b) => a + b, 0)`. */
  function Sum(s: seq<real>): real
  {
    if |s| == 0 then 0.0 else Sum(s[..|s| - 1]) + s[|s| - 1]
  }

  /** A sum of positive values is positive and at least each of them. */
  lemma {:induction false} SumOfPositives(s: seq<real>)
    requires |s| > 0
    requires forall k :: 0 <= k < |s| ==> s[k] > 0.0
    ensures Sum(s) > 0.0
    ensures forall k :: 0 <= k < |s| ==> s[k] <= Sum(s)
  {
    if |s| > 1 {
      var p := s[..|s| - 1];
      SumOfPositives(p);
      assert forall k :: 0 <= k < |p| ==> p[k] == s[k];
    }
  }

  function Scale(s: seq<real>, t: real): (r: seq<real>)
    requires t != 0.0
    ensures |r| == |s|
  {
    seq(|s|, k requires 0 <= k < |s| => s[k] / t)
  }

  lemma {:induction false} SumScale(s: seq<real>, t: real)
    requires t != 0.0
    ensures Sum(Scale(s, t)) == Sum(s) / t
  {
    if |s| > 0 {
      var p := s[..|s| - 1];
      SumScale(p, t);
      assert Scale(s, t)[..|s| - 1] == Scale(p, t);
    }
  }

  /** `exp(score - max)` for every score. */
  function Exponentials(scores: seq<real>, m: real, exp: real -> PositiveReal): (e: seq<real>)
    ensures |e| == |scores|
    ensures forall k :: 0 <= k < |e| ==> e[k] > 0.0
  {
    seq(|scores|, k requires 0 <= k < |scores| => exp(scores[k] - m))
  }

  /** The softmax of the class scores. `Math.exp` is the parameter `exp`, of which only
      positivity is assumed (its result type). */
  function Softmax(scores: seq<real>, exp: real -> PositiveReal): (p: seq<real>)
    requires |scores| > 0
    ensures |p| == |scores|
  {
    var e := Exponentials(scores, Sorting.MaxOf(scores), exp);
    SumOfPositives(e);
    Scale(e, Sum(e))
  }

  /** Every probability lies in (0, 1]. */
  lemma SoftmaxBounds(scores: seq<real>, exp: real -> PositiveReal)
    requires |scores| > 0
    ensures forall k :: 0 <= k < |scores| ==> 0.0 < Softmax(scores, exp)[k] <= 1.0
  {
    var e := Exponentials(scores, Sorting.MaxOf(scores), exp);
    SumOfPositives(e);
    ShareBounds(e, Sum(e));
  }

  /** Each of several positive parts of a positive total is a share in (0, 1]. */
  lemma ShareBounds(e: seq<real>, total: real)
    requires total > 0.0
    requires forall k :: 0 <= k < |e| ==> 0.0 < e[k] <= total
    ensures forall k :: 0 <= k < |e| ==> 0.0 < Scale(e, total)[k] <= 1.0
  {
    forall k | 0 <= k < |e| ensures 0.0 < Scale(e, total)[k] <= 1.0 {
      DivBounds(e[k], total);
    }
  }

  /** The probabilities add up to one. */
  lemma SoftmaxSumsToOne(scores: seq<real>, exp: real -> PositiveReal)
    requires |scores| > 0
    ensures Sum(Softmax(scores, exp)) == 1.0
  {
    var e := Exponentials(scores, Sorting.MaxOf(scores), exp);
    SumOfPositives(e);
    assert Softmax(scores, exp) == Scale(e, Sum(e));
    SumScale(e, Sum(e));
    assert Sum(e) / Sum(e) == 1.0;
  }

  /** Every score moved down by `c`. */
  function Shift(s: seq<real>, c: real): (r: seq<real>)
    ensures |r| == |s|
    ensures forall k :: 0 <= k < |s| ==> r[k] + c == s[k]
  {
    seq(|s|, k requires 0 <= k < |s| => s[k] - c)
  }

  /** Moving every score by `c` moves the maximum by `c`. */
  lemma {:induction false} MaxOfShift(s: seq<real>, c: real)
    requires |s| > 0
    ensures Sorting.MaxOf(Shift(s, c)) == Sorting.MaxOf(s) - c
  {
    if |s| > 1 {
      var p := s[..|s| - 1];
      MaxOfShift(p, c);
      assert Shift(s, c)[..|s| - 1] == Shift(p, c);
    }
  }

  /** Subtracting the maximum before `exp` is only for numerical range: the softmax
      of scores moved by any constant is the softmax of the scores. */
  lemma SoftmaxShiftInvariant(s: seq<real>, c: real, exp: real -> PositiveReal)
    requires |s| > 0
    ensures Softmax(Shift(s, c), exp) == Softmax(s, exp)
  {
    MaxOfShift(s, c);
    assert Exponentials(Shift(s, c), Sorting.MaxOf(Shift(s, c)), exp)
        == Exponentials(s, Sorting.MaxOf(s), exp);
  }

  /** A row of the prediction array: the `i`-th run of 85 values. */
  predicate RowInRange(predictions: seq<real>, i: int)
  {
    0 <= i && (i + 1) * RowLength <= |predictions|
  }

  function ClassScores(predictions: seq<real>, i: int): (s: seq<real>)
    requires RowInRange(predictions, i)
    ensures |s| == NumClasses
  {
    predictions[i * RowLength + 5 .. i * RowLength + 5 + NumClasses]
  }

  function Probabilities(predictions: seq<real>, i: int, exp: real -> PositiveReal): (p: seq<real>)
    requires RowInRange(predictions, i)
    ensures |p| == NumClasses
  {
    Softmax(ClassScores(predictions, i), exp)
  }

  /** `probabilities.indexOf(Math.max(...probabilities))`. */
  function PredictedClass(predictions: seq<real>, i: int, exp: real -> PositiveReal): int
    requires RowInRange(predictions, i)
  {
    Sorting.FirstArgMax(Probabilities(predictions, i, exp))
  }

  /** `objConfidence` times the bird probability, clamped to [0, 1]. */
  function RowConfidence(predictions: seq<real>, i: int, exp: real -> PositiveReal): real
    requires RowInRange(predictions, i)
  {
    var objConfidence := Clamp01(predictions[i * RowLength + 4]);
    Clamp01(Probabilities(predictions, i, exp)[BirdClassIndex] * objConfidence)
  }

  function RowBox(predictions: seq<real>, i: int): BoundingBox
    requires RowInRange(predictions, i)
  {
    var offset := i * RowLength;
    BoundingBox(predictions[offset], predictions[offset + 1], predictions[offset + 2], predictions[offset + 3])
  }

  /** `isWithinBounds`. */
  predicate WithinBounds(b: BoundingBox)
  {
    b.x >= 0.0 && b.x + b.width <= 1.0 && b.y >= 0.0 && b.y + b.height <= 1.0
  }

  /** The three tests a row passes to become a candidate. */
  predicate KeepRow(predictions: seq<real>, i: int, exp: real -> PositiveReal)
    requires RowInRange(predictions, i)
  {
    var b := RowBox(predictions, i);
    PredictedClass(predictions, i, exp) == BirdClassIndex &&
    RowConfidence(predictions, i, exp) > ConfidenceThreshold &&
    Area(b) > MinBirdSize &&
    WithinBounds(b)
  }

  /** The record pushed for a kept row; `detectionTime` stands for `new Date().toISOString()`. */
  function RowDetection(predictions: seq<real>, i: int, exp: real -> PositiveReal, detectionTime: string): BirdDetectionResult
    requires RowInRange(predictions, i)
  {
    var confidence := RowConfidence(predictions, i, exp);
    BirdDetectionResult(DetectedSpecies, confidence, RowBox(predictions, i),
      Metadata(DetectionModelVersion, confidence, detectionTime, DetectionOriginalClass))
  }

  /** The rows of the first `n` all lie inside the array. */
  lemma RowsInRange(predictions: seq<real>, n: nat)
    requires n * RowLength <= |predictions|
    ensures forall i :: 0 <= i < n ==> RowInRange(predictions, i)
  {
    forall i | 0 <= i < n ensures RowInRange(predictions, i) {
      assert (i + 1) * 85 <= n * 85;
    }
  }

  /** The test of a row, as a function of its number. */
  function RowKept(predictions: seq<real>, exp: real -> PositiveReal): nat -> bool
  {
    i => RowInRange(predictions, i) && KeepRow(predictions, i, exp)
  }

  /** The record of a row, as a function of its number. */
  function RowMake(predictions: seq<real>, exp: real -> PositiveReal, detectionTime: string): nat --> BirdDetectionResult
  {
    i requires RowInRange(predictions, i) => RowDetection(predictions, i, exp, detectionTime)
  }

  /** The candidates among the first `n` rows, in row order. */
  function Candidates(predictions: seq<real>, n: nat, exp: real -> PositiveReal, detectionTime: string): seq<BirdDetectionResult>
    requires n * RowLength <= |predictions|
  {
    RowsInRange(predictions, n);
    Selection.Collect(n, RowKept(predictions, exp), RowMake(predictions, exp, detectionTime))
  }

  /** The numbers of the rows among the first `n` that pass the tests. */
  function KeptRows(predictions: seq<real>, n: nat, exp: real -> PositiveReal): seq<nat>
  {
    Selection.Select(n, RowKept(predictions, exp))
  }

  /** The loop of `processImage` that fills `rawDetections`. */
  method DecodePredictions(predictions: seq<real>, exp: real -> PositiveReal, detectionTime: string)
    returns (rawDetections: seq<BirdDetectionResult>)
    requires |predictions| % RowLength == 0
    ensures rawDetections == Candidates(predictions, |predictions| / RowLength, exp, detectionTime)
  {
    var numPredictions := |predictions| / RowLength;
    rawDetections := [];
    var i := 0;
    while i < numPredictions
      invariant 0 <= i <= numPredictions
      invariant rawDetections == Candidates(predictions, i, exp, detectionTime)
    {
      RowOfCount(predictions, i);
      CandidatesStep(predictions, i, exp, detectionTime);
      var detection := DecodeRow(predictions, i, exp, detectionTime);
      if detection.Some? {
        rawDetections := rawDetections + [detection.value];
      }
      i := i + 1;
    }
  }

  /** One iteration of that loop: the record it pushes for row `i`, if any. */
  method DecodeRow(predictions: seq<real>, i: nat, exp: real -> PositiveReal, detectionTime: string)
    returns (detection: Option<BirdDetectionResult>)
    requires RowInRange(predictions, i)
    ensures detection.Some? <==> KeepRow(predictions, i, exp)
    ensures detection.Some? ==> detection.value == RowDetection(predictions, i, exp, detectionTime)
  {
    var probabilities := Probabilities(predictions, i, exp);
    var maxProbIndex := Sorting.FirstArgMax(probabilities);
    var confidence := RowConfidence(predictions, i, exp);
    detection := None;
    if maxProbIndex == BirdClassIndex && confidence > ConfidenceThreshold {
      var box := RowBox(predictions, i);
      var isLargeEnough := Area(box) > MinBirdSize;
      var isWithinBounds := WithinBounds(box);
      if isLargeEnough && isWithinBounds {
        detection := Some(BirdDetectionResult(DetectedSpecies, confidence, box,
          Metadata(DetectionModelVersion, confidence, detectionTime, DetectionOriginalClass)));
      }
    }
  }

  /** One more row extends the candidates by that row's detection exactly when it is kept. */
  lemma CandidatesStep(predictions: seq<real>, i: nat, exp: real -> PositiveReal, detectionTime: string)
    requires (i + 1) * RowLength <= |predictions|
    ensures i * RowLength <= |predictions|
    ensures KeepRow(predictions, i, exp) ==>
      Candidates(predictions, i + 1, exp, detectionTime) ==
      Candidates(predictions, i, exp, detectionTime) + [RowDetection(predictions, i, exp, detectionTime)]
    ensures !KeepRow(predictions, i, exp) ==>
      Candidates(predictions, i + 1, exp, detectionTime) == Candidates(predictions, i, exp, detectionTime)
  {
  }

  lemma RowOfCount(predictions: seq<real>, i: int)
    requires |predictions| % RowLength == 0
    requires 0 <= i < |predictions| / RowLength
    ensures RowInRange(predictions, i)
    ensures i + 1 <= |predictions| / RowLength
    ensures (i + 1) * RowLength <= |predictions|
  {
    var n := |predictions| / RowLength;
    assert |predictions| == n * 85;
    assert (i + 1) * 85 <= n * 85;
  }

  /** What every candidate looks like. */
  predicate IsCandidate(d: BirdDetectionResult, detectionTime: string)
  {
    d.species == DetectedSpecies &&
    ConfidenceThreshold < d.confidence <= 1.0 &&
    Area(d.boundingBox) > MinBirdSize &&
    WithinBounds(d.boundingBox) &&
    d.metadata == Metadata(DetectionModelVersion, d.confidence, detectionTime, DetectionOriginalClass)
  }

  /** The kept row numbers are rows of the array, listed in increasing order. */
  lemma KeptRowsIncreasing(predictions: seq<real>, n: nat, exp: real -> PositiveReal)
    ensures forall k :: 0 <= k < |KeptRows(predictions, n, exp)| ==> KeptRows(predictions, n, exp)[k] < n
    ensures forall k, l :: 0 <= k < l < |KeptRows(predictions, n, exp)| ==>
      KeptRows(predictions, n, exp)[k] < KeptRows(predictions, n, exp)[l]
  {
    Selection.SelectIncreasing(n, RowKept(predictions, exp));
  }

  /** A row of the first `n` is listed exactly when it passes the tests. */
  lemma KeptRowsExactly(predictions: seq<real>, n: nat, exp: real -> PositiveReal, i: nat)
    requires n * RowLength <= |predictions|
    requires i < n
    ensures RowInRange(predictions, i)
    ensures i in KeptRows(predictions, n, exp) <==> KeepRow(predictions, i, exp)
  {
    RowsInRange(predictions, n);
    Selection.SelectExactly(n, RowKept(predictions, exp), i);
  }

  /** The candidates are the kept rows' detections, one for one and in order. */
  lemma CandidatesOfKeptRows(predictions: seq<real>, n: nat, exp: real -> PositiveReal, detectionTime: string)
    requires n * RowLength <= |predictions|
    ensures |Candidates(predictions, n, exp, detectionTime)| == |KeptRows(predictions, n, exp)|
    ensures forall k :: 0 <= k < |KeptRows(predictions, n, exp)| ==>
      RowInRange(predictions, KeptRows(predictions, n, exp)[k]) &&
      Candidates(predictions, n, exp, detectionTime)[k] ==
      RowDetection(predictions, KeptRows(predictions, n, exp)[k], exp, detectionTime)
  {
    RowsInRange(predictions, n);
    Selection.CollectSelect(n, RowKept(predictions, exp), RowMake(predictions, exp, detectionTime));
  }

  /** A kept row's record is a candidate. */
  lemma KeptRowIsCandidate(predictions: seq<real>, i: int, exp: real -> PositiveReal, detectionTime: string)
    requires RowInRange(predictions, i)
    requires KeepRow(predictions, i, exp)
    ensures IsCandidate(RowDetection(predictions, i, exp, detectionTime), detectionTime)
  {
  }

  /** Every candidate is a bird detection with a confidence above the threshold and an
      in-bounds box of sufficient size. */
  lemma CandidatesAreBirds(predictions: seq<real>, n: nat, exp: real -> PositiveReal, detectionTime: string)
    requires n * RowLength <= |predictions|
    ensures forall d :: d in Candidates(predictions, n, exp, detectionTime) ==> IsCandidate(d, detectionTime)
  {
    var rows := KeptRows(predictions, n, exp);
    var c := Candidates(predictions, n, exp, detectionTime);
    CandidatesOfKeptRows(predictions, n, exp, detectionTime);
    KeptRowsIncreasing(predictions, n, exp);
    forall d | d in c ensures IsCandidate(d, detectionTime) {
      var k :| 0 <= k < |c| && c[k] == d;
      KeptRowsExactly(predictions, n, exp, rows[k]);
      KeptRowIsCandidate(predictions, rows[k], exp, detectionTime);
    }
  }
}
