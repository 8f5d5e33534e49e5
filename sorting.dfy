/**
 * `Math.max(...xs)`, `xs.indexOf(Math.max(...xs))` and the stable
 * `Array.prototype.sort` with a descending comparator (`(a, b) => key(b) - key(a)`),
 * which the source uses to rank detections by confidence, species matches by
 * score and species tallies by count.
 */
module Sorting {

  /** `Math.max(...s)` for a non-empty list. */
  function MaxOf(s: seq<real>): real
    requires |s| > 0
  {
    if |s| == 1 then s[0]
    else
      var m' := MaxOf(s[..|s| - 1]);
      if s[|s| - 1] > m' then s[|s| - 1] else m'
  }

  /** MaxOf is one of the values and none is larger. */
  lemma {:induction false} MaxOfIsMax(s: seq<real>)
    requires |s| > 0
    ensures MaxOf(s) in s
    ensures forall j :: 0 <= j < |s| ==> s[j] <= MaxOf(s)
  {
    if |s| > 1 {
      var p := s[..|s| - 1];
      MaxOfIsMax(p);
      assert forall j :: 0 <= j < |p| ==> p[j] == s[j];
      assert MaxOf(p) in s;
    }
  }

  /** `s.indexOf(Math.max(...s))`: the first index holding the largest value, or -1
      for an empty list (where `Math.max()` is minus infinity, which `indexOf` does not find). */
  function FirstArgMax(s: seq<real>): (r: int)
    ensures r == -1 <==> |s| == 0
    ensures |s| > 0 ==> 0 <= r < |s|
  {
    if |s| == 0 then -1
    else if |s| == 1 then 0
    else
      var r' := FirstArgMax(s[..|s| - 1]);
      if s[|s| - 1] > s[r'] then |s| - 1 else r'
  }

  /** FirstArgMax holds a largest value, and every earlier index holds a smaller one. */
  lemma {:induction false} FirstArgMaxIsFirstMax(s: seq<real>)
    requires |s| > 0
    ensures forall j :: 0 <= j < |s| ==> s[j] <= s[FirstArgMax(s)]
    ensures forall j :: 0 <= j < FirstArgMax(s) ==> s[j] < s[FirstArgMax(s)]
  {
    if |s| > 1 {
      var p := s[..|s| - 1];
      FirstArgMaxIsFirstMax(p);
      assert forall j :: 0 <= j < |p| ==> p[j] == s[j];
    }
  }

  /** The two properties of FirstArgMax determine it. */
  lemma FirstArgMaxUnique(s: seq<real>, r: int)
    requires 0 <= r < |s|
    requires forall j :: 0 <= j < |s| ==> s[j] <= s[r]
    requires forall j :: 0 <= j < r ==> s[j] < s[r]
    ensures FirstArgMax(s) == r
  {
    FirstArgMaxIsFirstMax(s);
  }

  predicate SortedDesc<T>(s: seq<T>, key: T -> real)
  {
    forall i, j :: 0 <= i < j < |s| ==> key(s[i]) >= key(s[j])
  }

  /** Inserts `x`, which comes after every element of `r` in the input, behind every
      element whose key is at least `key(x)`: the place a stable sort gives it. */
  function InsertDesc<T>(x: T, r: seq<T>, key: T -> real): (out: seq<T>)
    ensures |out| == |r| + 1
  {
    if |r| == 0 || key(r[|r| - 1]) >= key(x) then r + [x]
    else InsertDesc(x, r[..|r| - 1], key) + [r[|r| - 1]]
  }

  /** The stable descending sort, built by inserting the elements in input order. */
  function SortDesc<T>(s: seq<T>, key: T -> real): (out: seq<T>)
    ensures |out| == |s|
  {
    if |s| == 0 then []
    else InsertDesc(s[|s| - 1], SortDesc(s[..|s| - 1], key), key)
  }

  lemma {:induction false} InsertDescPermutes<T>(x: T, r: seq<T>, key: T -> real)
    ensures multiset(InsertDesc(x, r, key)) == multiset(r) + multiset{x}
  {
    if |r| > 0 && key(r[|r| - 1]) < key(x) {
      InsertDescPermutes(x, r[..|r| - 1], key);
      assert r == r[..|r| - 1] + [r[|r| - 1]];
    }
  }

  /** The sort is a permutation of its input. */
  lemma {:induction false} SortDescPermutes<T>(s: seq<T>, key: T -> real)
    ensures multiset(SortDesc(s, key)) == multiset(s)
  {
    if |s| > 0 {
      SortDescPermutes(s[..|s| - 1], key);
      InsertDescPermutes(s[|s| - 1], SortDesc(s[..|s| - 1], key), key);
      assert s == s[..|s| - 1] + [s[|s| - 1]];
    }
  }

  lemma {:induction false} InsertDescSorted<T>(x: T, r: seq<T>, key: T -> real)
    requires SortedDesc(r, key)
    ensures SortedDesc(InsertDesc(x, r, key), key)
  {
    if |r| > 0 && key(r[|r| - 1]) < key(x) {
      var r' := r[..|r| - 1];
      InsertDescSorted(x, r', key);
      InsertDescPermutes(x, r', key);
      var ins := InsertDesc(x, r', key);
      forall y | y in ins ensures key(y) >= key(r[|r| - 1]) {
        assert y in multiset(ins);
        if y != x {
          assert y in multiset(r');
          var k :| 0 <= k < |r'| && r'[k] == y;
          assert r[k] == y;
        }
      }
      var out := ins + [r[|r| - 1]];
      forall i, j | 0 <= i < j < |out| ensures key(out[i]) >= key(out[j]) {
        if j == |out| - 1 {
          assert out[i] in ins;
        }
      }
    }
  }

  lemma {:induction false} SortDescSorted<T>(s: seq<T>, key: T -> real)
    ensures SortedDesc(SortDesc(s, key), key)
  {
    if |s| > 0 {
      SortDescSorted(s[..|s| - 1], key);
      InsertDescSorted(s[|s| - 1], SortDesc(s[..|s| - 1], key), key);
    }
  }

  /** Sorting an already sorted list changes nothing (equal keys keep their order). */
  lemma {:induction false} SortDescOfSorted<T>(s: seq<T>, key: T -> real)
    requires SortedDesc(s, key)
    ensures SortDesc(s, key) == s
  {
    if |s| > 0 {
      var p := s[..|s| - 1];
      assert SortedDesc(p, key);
      SortDescOfSorted(p, key);
      assert s == p + [s[|s| - 1]];
    }
  }

  /** The elements whose key is `v`, in the order of `s`. */
  function WithKey<T>(s: seq<T>, key: T -> real, v: real): seq<T>
  {
    if |s| == 0 then []
    else WithKey(s[..|s| - 1], key, v) + (if key(s[|s| - 1]) == v then [s[|s| - 1]] else [])
  }

  lemma {:induction false} WithKeyAppend<T>(a: seq<T>, b: seq<T>, key: T -> real, v: real)
    ensures WithKey(a + b, key, v) == WithKey(a, key, v) + WithKey(b, key, v)
  {
    if |b| == 0 {
      assert a + b == a;
    } else {
      var b' := b[..|b| - 1];
      WithKeyAppend(a, b', key, v);
      assert (a + b)[..|a + b| - 1] == a + b';
    }
  }

  /** Inserting `x` puts it behind every element of `r` with the same key. */
  lemma {:induction false} InsertDescWithKey<T>(x: T, r: seq<T>, key: T -> real, v: real)
    ensures WithKey(InsertDesc(x, r, key), key, v)
         == WithKey(r, key, v) + (if key(x) == v then [x] else [])
  {
    if |r| == 0 || key(r[|r| - 1]) >= key(x) {
      WithKeyAppend(r, [x], key, v);
      assert WithKey([x], key, v) == WithKey([x][..0], key, v) + (if key(x) == v then [x] else []);
    } else {
      var r' := r[..|r| - 1];
      var last := r[|r| - 1];
      InsertDescWithKey(x, r', key, v);
      WithKeyAppend(InsertDesc(x, r', key), [last], key, v);
      assert WithKey([last], key, v) == WithKey([last][..0], key, v) + (if key(last) == v then [last] else []);
    }
  }

  /** The sort is stable: for each key value, the elements with that key come out in
      their input order. */
  lemma {:induction false} SortDescStable<T>(s: seq<T>, key: T -> real, v: real)
    ensures WithKey(SortDesc(s, key), key, v) == WithKey(s, key, v)
  {
    if |s| > 0 {
      SortDescStable(s[..|s| - 1], key, v);
      InsertDescWithKey(s[|s| - 1], SortDesc(s[..|s| - 1], key), key, v);
    }
  }

  /** On a list sorted by descending key, an element outside a prefix has a key no
      larger than any element of the prefix. */
  lemma PrefixDominates<T>(s: seq<T>, key: T -> real, m: nat)
    requires SortedDesc(s, key) && m <= |s|
    ensures forall e, k :: e in s && e !in s[..m] && 0 <= k < m ==> key(e) <= key(s[k])
  {
    forall e, k | e in s && e !in s[..m] && 0 <= k < m ensures key(e) <= key(s[k]) {
      var j :| 0 <= j < |s| && s[j] == e;
    }
  }

  /** The head of the stable descending sort is the first element of largest key;
      `b` is its index in the input. */
  lemma {:induction false} SortDescHead<T>(s: seq<T>, key: T -> real) returns (b: nat)
    requires |s| > 0
    ensures b < |s| && SortDesc(s, key)[0] == s[b]
    ensures forall j :: 0 <= j < |s| ==> key(s[j]) <= key(s[b])
    ensures forall j :: 0 <= j < b ==> key(s[j]) < key(s[b])
  {
    if |s| == 1 {
      b := 0;
    } else {
      var p := s[..|s| - 1];
      var x := s[|s| - 1];
      var b' := SortDescHead(p, key);
      assert s == p + [x];
      assert SortDesc(s, key) == InsertDesc(x, SortDesc(p, key), key);
      InsertIntoSortedHead(x, p, key);
      b := MaxStep(p, x, b', key);
    }
  }

  /** The first index of largest key after appending `x`, from the one before. */
  lemma MaxStep<T>(p: seq<T>, x: T, b': nat, key: T -> real) returns (b: nat)
    requires b' < |p|
    requires forall j :: 0 <= j < |p| ==> key(p[j]) <= key(p[b'])
    requires forall j :: 0 <= j < b' ==> key(p[j]) < key(p[b'])
    ensures b == if key(x) > key(p[b']) then |p| else b'
    ensures b < |p + [x]| && (p + [x])[b] == if key(x) > key(p[b']) then x else p[b']
    ensures forall j :: 0 <= j < |p + [x]| ==> key((p + [x])[j]) <= key((p + [x])[b])
    ensures forall j :: 0 <= j < b ==> key((p + [x])[j]) < key((p + [x])[b])
  {
    b := if key(x) > key(p[b']) then |p| else b';
  }

  lemma InsertIntoSortedHead<T>(x: T, p: seq<T>, key: T -> real)
    requires |p| > 0
    ensures InsertDesc(x, SortDesc(p, key), key)[0] ==
            if key(x) > key(SortDesc(p, key)[0]) then x else SortDesc(p, key)[0]
  {
    SortDescSorted(p, key);
    InsertDescHead(x, SortDesc(p, key), key);
  }

  lemma {:induction false} InsertDescHead<T>(x: T, r: seq<T>, key: T -> real)
    requires |r| > 0 && SortedDesc(r, key)
    ensures InsertDesc(x, r, key)[0] == if key(x) > key(r[0]) then x else r[0]
  {
    if key(r[|r| - 1]) < key(x) && |r| > 1 {
      InsertDescHead(x, r[..|r| - 1], key);
    }
  }
}
