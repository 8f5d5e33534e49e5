/**
 * The greedy non-maximum suppression of `processImage`: the candidates, sorted by
 * descending confidence, are visited in order, and each is kept unless its box has an
 * IoU above 0.45 with a box kept before it.
 */
module Nms {
  import opened Box
  import opened Detections
  import Sorting
  import Greedy

  /** The test inside the inner loop: `iou > nmsIoUThreshold`. */
  predicate Conflicts(d: BirdDetectionResult, kept: BirdDetectionResult)
  {
    ComputeIoU(d.boundingBox, kept.boundingBox) > NmsIoUThreshold
  }

  /** `finalDetections` after visiting the detections of `s` in order. */
  function Suppressed(s: seq<BirdDetectionResult>): seq<BirdDetectionResult>
  {
    Greedy.Keep(s, Conflicts)
  }

  /** The two loops of the suppression, with the `shouldKeep` flag and the `break`. */
  method Suppress(rawDetections: seq<BirdDetectionResult>) returns (finalDetections: seq<BirdDetectionResult>)
    ensures finalDetections == Suppressed(rawDetections)
  {
    finalDetections := [];
    var n := 0;
    while n < |rawDetections|
      invariant 0 <= n <= |rawDetections|
      invariant finalDetections == Suppressed(rawDetections[..n])
    {
      var detection := rawDetections[n];
      var shouldKeep := true;
      var j := 0;
      while j < |finalDetections|
        invariant 0 <= j <= |finalDetections|
        invariant shouldKeep
        invariant forall l :: 0 <= l < j ==> !Conflicts(detection, finalDetections[l])
      {
        var iou := ComputeIoU(detection.boundingBox, finalDetections[j].boundingBox);
        if iou > NmsIoUThreshold {
          shouldKeep := false;
          break;
        }
        j := j + 1;
      }
      assert shouldKeep <==> Greedy.Survives(detection, finalDetections, Conflicts);
      assert rawDetections[..n + 1][..n] == rawDetections[..n];
      if shouldKeep {
        finalDetections := finalDetections + [detection];
      }
      n := n + 1;
    }
    assert rawDetections[..n] == rawDetections;
  }

  /** The kept detections are input detections, in input order, and each detection left
      out has an IoU above the threshold with a kept detection that came before it. */
  lemma SuppressedSubsequence(s: seq<BirdDetectionResult>, i: nat)
    requires i < |s|
    ensures |Greedy.Positions(s, Conflicts)| == |Suppressed(s)|
    ensures forall k :: 0 <= k < |Greedy.Positions(s, Conflicts)| ==>
      Greedy.Positions(s, Conflicts)[k] < |s| && Suppressed(s)[k] == s[Greedy.Positions(s, Conflicts)[k]]
    ensures forall k, l :: 0 <= k < l < |Greedy.Positions(s, Conflicts)| ==>
      Greedy.Positions(s, Conflicts)[k] < Greedy.Positions(s, Conflicts)[l]
    ensures i !in Greedy.Positions(s, Conflicts) ==>
      exists k :: 0 <= k < |Greedy.Positions(s, Conflicts)| && Greedy.Positions(s, Conflicts)[k] < i &&
        ComputeIoU(s[i].boundingBox, Suppressed(s)[k].boundingBox) > NmsIoUThreshold
  {
    Greedy.KeepSubsequence(s, Conflicts);
    if i !in Greedy.Positions(s, Conflicts) {
      Greedy.DroppedConflicts(s, Conflicts, i);
    }
  }

  /** No two kept boxes overlap with an IoU above the threshold, in either order. */
  lemma SuppressedSeparated(s: seq<BirdDetectionResult>, k: nat, l: nat)
    requires k < |Suppressed(s)| && l < |Suppressed(s)| && k != l
    ensures ComputeIoU(Suppressed(s)[k].boundingBox, Suppressed(s)[l].boundingBox) <= NmsIoUThreshold
  {
    Greedy.KeepSeparated(s, Conflicts);
    if k < l {
      IoUSymmetric(Suppressed(s)[k].boundingBox, Suppressed(s)[l].boundingBox);
    }
  }

  /** The first detection, which after the sort has the highest confidence, is always kept. */
  lemma SuppressedKeepsFirst(s: seq<BirdDetectionResult>)
    requires |s| > 0
    ensures |Suppressed(s)| > 0 && Suppressed(s)[0] == s[0]
  {
    Greedy.KeepsFirst(s, Conflicts);
  }

  /** On a list sorted by descending confidence, every detection is kept or is suppressed
      by a kept detection at least as confident. */
  lemma SuppressedCovers(s: seq<BirdDetectionResult>, i: nat)
    requires Sorting.SortedDesc(s, Confidence) && i < |s|
    ensures s[i] in Suppressed(s) ||
      exists e :: e in Suppressed(s) && e.confidence >= s[i].confidence &&
        ComputeIoU(s[i].boundingBox, e.boundingBox) > NmsIoUThreshold
  {
    Greedy.KeepSubsequence(s, Conflicts);
    var ix := Greedy.Positions(s, Conflicts);
    var kept := Suppressed(s);
    if i in ix {
      var k :| 0 <= k < |ix| && ix[k] == i;
      assert kept[k] == s[i];
    } else {
      Greedy.DroppedConflicts(s, Conflicts, i);
      var k :| 0 <= k < |ix| && ix[k] < i && Conflicts(s[i], kept[k]);
      assert kept[k] == s[ix[k]];
      assert Confidence(s[ix[k]]) >= Confidence(s[i]);
    }
  }

  /** The suppression keeps an order by descending confidence. */
  lemma SuppressedSorted(s: seq<BirdDetectionResult>)
    requires Sorting.SortedDesc(s, Confidence)
    ensures Sorting.SortedDesc(Suppressed(s), Confidence)
  {
    Greedy.KeepSubsequence(s, Conflicts);
    var ix := Greedy.Positions(s, Conflicts);
    var r := Suppressed(s);
    forall k, l | 0 <= k < l < |r| ensures Confidence(r[k]) >= Confidence(r[l]) {
      assert r[k] == s[ix[k]] && r[l] == s[ix[l]] && ix[k] < ix[l];
    }
  }

  /** Running the suppression a second time changes nothing. */
  lemma SuppressedIdempotent(s: seq<BirdDetectionResult>)
    ensures Suppressed(Suppressed(s)) == Suppressed(s)
  {
    Greedy.KeepSeparated(s, Conflicts);
    Greedy.KeepOfSeparated(Suppressed(s), Conflicts);
  }
}
