/**
 * The shape of a loop over the indices `0 .. n - 1` that pushes `make(i)` for every
 * index passing `keep`: the decode loop of the backend and the one of the frontend.
 */
module Selection {

  /** The indices below `n` that pass `keep`, in increasing order. */
  function Select(n: nat, keep: nat -> bool): (r: seq<nat>)
    ensures |r| <= n
  {
    if n == 0 then []
    else if keep(n - 1) then Select(n - 1, keep) + [n - 1]
    else Select(n - 1, keep)
  }

  /** What the loop pushes after `n` iterations. */
  function Collect<T>(n: nat, keep: nat -> bool, make: nat --> T): (r: seq<T>)
    requires forall i :: 0 <= i < n ==> make.requires(i)
    ensures |r| <= n
  {
    if n == 0 then []
    else if keep(n - 1) then Collect(n - 1, keep, make) + [make(n - 1)]
    else Collect(n - 1, keep, make)
  }

  /** The selected indices are below `n` and strictly increasing. */
  lemma {:induction false} SelectIncreasing(n: nat, keep: nat -> bool)
    ensures forall k :: 0 <= k < |Select(n, keep)| ==> Select(n, keep)[k] < n
    ensures forall k, l :: 0 <= k < l < |Select(n, keep)| ==> Select(n, keep)[k] < Select(n, keep)[l]
  {
    if n > 0 {
      SelectIncreasing(n - 1, keep);
    }
  }

  /** An index below `n` is selected exactly when it passes `keep`. */
  lemma {:induction false} SelectExactly(n: nat, keep: nat -> bool, i: nat)
    requires i < n
    ensures i in Select(n, keep) <==> keep(i)
  {
    SelectIncreasing(n - 1, keep);
    if i < n - 1 {
      SelectExactly(n - 1, keep, i);
    }
  }

  /** The first selected index is the first index passing `keep`; when nothing is
      selected, no index passes. */
  lemma {:induction false} SelectFirst(n: nat, keep: nat -> bool)
    ensures |Select(n, keep)| == 0 ==> forall i :: 0 <= i < n ==> !keep(i)
    ensures |Select(n, keep)| > 0 ==>
      Select(n, keep)[0] < n && keep(Select(n, keep)[0]) && forall i :: 0 <= i < Select(n, keep)[0] ==> !keep(i)
  {
    if n > 0 {
      SelectFirst(n - 1, keep);
    }
  }

  /** The pushed values are `make` of the selected indices, one for one and in order. */
  lemma {:induction false} CollectSelect<T>(n: nat, keep: nat -> bool, make: nat --> T)
    requires forall i :: 0 <= i < n ==> make.requires(i)
    ensures |Collect(n, keep, make)| == |Select(n, keep)|
    ensures forall k :: 0 <= k < |Select(n, keep)| ==>
      Select(n, keep)[k] < n && Collect(n, keep, make)[k] == make(Select(n, keep)[k])
  {
    SelectIncreasing(n, keep);
    if n > 0 {
      CollectSelect(n - 1, keep, make);
    }
  }
}
