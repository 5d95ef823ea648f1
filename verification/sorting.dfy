/**
  The stable descending sort the engine relies on. JavaScript's
  `Array.prototype.sort` is stable, so `xs.sort((a, b) => key(b) - key(a))`
  orders by key, largest first, and keeps the input order among equal keys.
  It is modelled here as an insertion sort on sequences.
 */
module Sorting {

  ghost predicate NonIncreasing<T>(s: seq<T>, key: T -> real)
  {
    forall i, j :: 0 <= i < j < |s| ==> key(s[i]) >= key(s[j])
  }

  /** The elements of `s` whose key is `k`, in their order in `s`. */
  function WithKey<T>(s: seq<T>, key: T -> real, k: real): seq<T>
  {
    if |s| == 0 then []
    else (if key(s[0]) == k then [s[0]] else []) + WithKey(s[1..], key, k)
  }

  /** Inserts `x` in front of the first element whose key does not exceed its own. */
  function InsertDesc<T>(x: T, s: seq<T>, key: T -> real): (r: seq<T>)
    requires NonIncreasing(s, key)
    ensures NonIncreasing(r, key)
    ensures multiset(r) == multiset(s) + multiset{x}
    ensures |r| == |s| + 1
    ensures r[0] == x || (|s| > 0 && r[0] == s[0])
  {
    if |s| == 0 || key(s[0]) <= key(x) then [x] + s
    else
      var t := InsertDesc(x, s[1..], key);
      assert s == [s[0]] + s[1..];
      assert key(t[0]) <= key(s[0]);
      [s[0]] + t
  }

  /** `s.sort((a, b) => key(b) - key(a))`. */
  function SortDesc<T>(s: seq<T>, key: T -> real): (r: seq<T>)
    ensures NonIncreasing(r, key)
    ensures multiset(r) == multiset(s)
    ensures |r| == |s|
  {
    if |s| == 0 then []
    else
      assert s == [s[0]] + s[1..];
      InsertDesc(s[0], SortDesc(s[1..], key), key)
  }

  lemma WithKeyCons<T>(x: T, s: seq<T>, key: T -> real, k: real)
    ensures WithKey([x] + s, key, k) == (if key(x) == k then [x] else []) + WithKey(s, key, k)
  {
    assert ([x] + s)[1..] == s;
  }

  /** The inductive step of WithKeyInsert, where `x` goes after the first element. */
  lemma WithKeyInsertStep<T>(x: T, s: seq<T>, key: T -> real, k: real)
    requires NonIncreasing(s, key) && |s| > 0 && key(x) < key(s[0])
    requires WithKey(InsertDesc(x, s[1..], key), key, k)
             == (if key(x) == k then [x] else []) + WithKey(s[1..], key, k)
    ensures WithKey(InsertDesc(x, s, key), key, k)
            == (if key(x) == k then [x] else []) + WithKey(s, key, k)
  {
    var t := InsertDesc(x, s[1..], key);
    var head: seq<T> := if key(s[0]) == k then [s[0]] else [];
    var mid: seq<T> := if key(x) == k then [x] else [];
    var tail := WithKey(s[1..], key, k);
    assert InsertDesc(x, s, key) == [s[0]] + t;
    WithKeyCons(s[0], t, key, k);
    assert WithKey(s, key, k) == head + tail;
    if key(x) == k {
      // s[0] has a larger key than x, so it is not among the elements with key k
      assert head == [];
      assert head + (mid + tail) == mid + tail;
      assert head + tail == tail;
    } else {
      assert mid == [];
      assert mid + (head + tail) == head + tail;
      assert mid + tail == tail;
    }
  }

  lemma {:induction false} WithKeyInsert<T>(x: T, s: seq<T>, key: T -> real, k: real)
    requires NonIncreasing(s, key)
    ensures WithKey(InsertDesc(x, s, key), key, k)
            == (if key(x) == k then [x] else []) + WithKey(s, key, k)
  {
    if |s| == 0 || key(s[0]) <= key(x) {
      WithKeyCons(x, s, key, k);
    } else {
      WithKeyInsert(x, s[1..], key, k);
      WithKeyInsertStep(x, s, key, k);
    }
  }

  /** Stability: for every key value, the elements carrying it keep their input order. */
  lemma {:induction false} SortDescStable<T>(s: seq<T>, key: T -> real, k: real)
    ensures WithKey(SortDesc(s, key), key, k) == WithKey(s, key, k)
  {
    if |s| > 0 {
      SortDescStable(s[1..], key, k);
      WithKeyInsert(s[0], SortDesc(s[1..], key), key, k);
    }
  }

  lemma {:induction false} WithKeyFirst<T>(s: seq<T>, key: T -> real, i: nat)
    requires i < |s|
    requires forall j :: 0 <= j < i ==> key(s[j]) != key(s[i])
    ensures |WithKey(s, key, key(s[i]))| > 0
    ensures WithKey(s, key, key(s[i]))[0] == s[i]
  {
    if i > 0 {
      WithKeyFirst(s[1..], key, i - 1);
    }
  }

  /** Sorting keeps every property that holds of all elements. */
  lemma SortDescAll<T>(s: seq<T>, key: T -> real, p: T -> bool)
    requires forall i :: 0 <= i < |s| ==> p(s[i])
    ensures forall i :: 0 <= i < |SortDesc(s, key)| ==> p(SortDesc(s, key)[i])
  {
    var r := SortDesc(s, key);
    forall i | 0 <= i < |r| ensures p(r[i]) {
      assert r[i] in multiset(s);
    }
  }

  /** The position of the earliest element with the largest key. */
  function FirstMaxIndex<T>(s: seq<T>, key: T -> real): (i: nat)
    requires |s| > 0
    ensures i < |s|
    ensures forall j :: 0 <= j < |s| ==> key(s[j]) <= key(s[i])
    ensures forall j :: 0 <= j < i ==> key(s[j]) < key(s[i])
  {
    if |s| == 1 then 0
    else
      var k := FirstMaxIndex(s[1..], key);
      assert forall j :: 1 <= j < |s| ==> s[j] == s[1..][j - 1];
      if key(s[0]) >= key(s[1..][k]) then 0 else k + 1
  }

  /** The first element of the sorted sequence carries the largest key. */
  lemma HeadKeyOfSortDesc<T>(s: seq<T>, key: T -> real)
    requires |s| > 0
    ensures key(SortDesc(s, key)[0]) == key(s[FirstMaxIndex(s, key)])
  {
    var r := SortDesc(s, key);
    var i := FirstMaxIndex(s, key);
    assert r[0] in multiset(s);
    var l :| 0 <= l < |s| && s[l] == r[0];
    assert s[i] in multiset(r);
    var l' :| 0 <= l' < |r| && r[l'] == s[i];
  }

  /**
    The first element of the sorted sequence is the earliest element of the
    input with the largest key.
   */
  lemma HeadOfSortDesc<T>(s: seq<T>, key: T -> real)
    requires |s| > 0
    ensures SortDesc(s, key)[0] == s[FirstMaxIndex(s, key)]
  {
    var r := SortDesc(s, key);
    var i := FirstMaxIndex(s, key);
    var m := key(s[i]);
    HeadKeyOfSortDesc(s, key);
    WithKeyFirst(s, key, i);
    WithKeyFirst(r, key, 0);
    SortDescStable(s, key, m);
  }
}
