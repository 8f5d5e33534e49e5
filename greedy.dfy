/**
 * Greedy suppression over a sequence: each item, visited in order, is kept unless it
 * conflicts with an item kept before it. The non-maximum suppression of the backend is
 * this scheme with IoU above a threshold as the conflict.
 */
module Greedy {

  /** `d` conflicts with none of `kept`. */
  predicate Survives<T>(d: T, kept: seq<T>, conflicts: (T, T) -> bool)
  {
    forall j :: 0 <= j < |kept| ==> !conflicts(d, kept[j])
  }

  /** The items kept after visiting `s` in order. */
  function Keep<T>(s: seq<T>, conflicts: (T, T) -> bool): (r: seq<T>)
    ensures |r| <= |s|
  {
    if |s| == 0 then []
    else
      var kept := Keep(s[..|s| - 1], conflicts);
      if Survives(s[|s| - 1], kept, conflicts) then kept + [s[|s| - 1]] else kept
  }

  /** The positions in `s` of the items kept. */
  function Positions<T>(s: seq<T>, conflicts: (T, T) -> bool): (ix: seq<nat>)
    ensures |ix| <= |s|
  {
    if |s| == 0 then []
    else
      var ix := Positions(s[..|s| - 1], conflicts);
      if Survives(s[|s| - 1], Keep(s[..|s| - 1], conflicts), conflicts) then ix + [|s| - 1] else ix
  }

  /** The kept items form a subsequence of `s`: they are the items at `Positions`, which increase. */
  lemma {:induction false} KeepSubsequence<T>(s: seq<T>, conflicts: (T, T) -> bool)
    ensures |Positions(s, conflicts)| == |Keep(s, conflicts)|
    ensures forall k :: 0 <= k < |Positions(s, conflicts)| ==>
      Positions(s, conflicts)[k] < |s| && Keep(s, conflicts)[k] == s[Positions(s, conflicts)[k]]
    ensures forall k, l :: 0 <= k < l < |Positions(s, conflicts)| ==>
      Positions(s, conflicts)[k] < Positions(s, conflicts)[l]
  {
    if |s| > 0 {
      var p := s[..|s| - 1];
      KeepSubsequence(p, conflicts);
      assert forall k :: 0 <= k < |Positions(p, conflicts)| ==>
        s[Positions(p, conflicts)[k]] == p[Positions(p, conflicts)[k]];
    }
  }

  /** An item left out conflicts with an item kept from an earlier position. */
  lemma {:induction false} DroppedConflicts<T>(s: seq<T>, conflicts: (T, T) -> bool, i: nat)
    requires i < |s| && i !in Positions(s, conflicts)
    ensures exists k ::
      && 0 <= k < |Positions(s, conflicts)| == |Keep(s, conflicts)|
      && Positions(s, conflicts)[k] < i
      && conflicts(s[i], Keep(s, conflicts)[k])
  {
    var p := s[..|s| - 1];
    KeepSubsequence(p, conflicts);
    var ix, kept := Positions(p, conflicts), Keep(p, conflicts);
    assert forall k :: 0 <= k < |ix| ==>
      Positions(s, conflicts)[k] == ix[k] && Keep(s, conflicts)[k] == kept[k];
    if i < |s| - 1 {
      DroppedConflicts(p, conflicts, i);
      var k :| 0 <= k < |ix| && ix[k] < i && conflicts(p[i], kept[k]);
      assert Positions(s, conflicts)[k] == ix[k] && Keep(s, conflicts)[k] == kept[k];
    } else {
      var j :| 0 <= j < |kept| && conflicts(s[i], kept[j]);
      assert Positions(s, conflicts)[j] == ix[j] && Keep(s, conflicts)[j] == kept[j];
    }
  }

  /** A later kept item never conflicts with an earlier one. */
  lemma {:induction false} KeepSeparated<T>(s: seq<T>, conflicts: (T, T) -> bool)
    ensures forall k, l :: 0 <= k < l < |Keep(s, conflicts)| ==>
      !conflicts(Keep(s, conflicts)[l], Keep(s, conflicts)[k])
  {
    if |s| > 0 {
      KeepSeparated(s[..|s| - 1], conflicts);
    }
  }

  /** The first item is always kept. */
  lemma KeepsFirst<T>(s: seq<T>, conflicts: (T, T) -> bool)
    requires |s| > 0
    ensures |Keep(s, conflicts)| > 0 && Keep(s, conflicts)[0] == s[0]
  {
    KeepSubsequence(s, conflicts);
    var ix := Positions(s, conflicts);
    if 0 !in ix {
      DroppedConflicts(s, conflicts, 0);
      assert false;
    }
  }

  /** Items that are already free of conflicts are all kept. */
  lemma {:induction false} KeepOfSeparated<T>(s: seq<T>, conflicts: (T, T) -> bool)
    requires forall k, l :: 0 <= k < l < |s| ==> !conflicts(s[l], s[k])
    ensures Keep(s, conflicts) == s
  {
    if |s| > 0 {
      var p := s[..|s| - 1];
      KeepOfSeparated(p, conflicts);
      assert Survives(s[|s| - 1], p, conflicts);
      assert p + [s[|s| - 1]] == s;
    }
  }
}
