/**
  Shared vocabulary of the engine: optional values, the ordered key/value
  records that JavaScript objects are, the `||` fallbacks the source uses on
  numbers, JavaScript rounding, and small sequence helpers.
 */
module Basics {

  datatype Option<T> = None | Some(value: T)

  /** One `key: value` pair of a JavaScript object. */
  datatype Entry<V> = Entry(key: string, value: V)

  /** A JavaScript object, as the ordered list `Object.entries` yields. */
  type Record<V> = seq<Entry<V>>

  /** The keys of a record, each once: what a JavaScript object guarantees. */
  ghost predicate UniqueKeys<V>(r: Record<V>)
  {
    forall i, j :: 0 <= i < j < |r| ==> r[i].key != r[j].key
  }

  /** `obj[key]`: the value stored under `key`, or None for `undefined`. */
  function Lookup<V>(r: Record<V>, key: string): (o: Option<V>)
    ensures o.Some? <==> exists i :: 0 <= i < |r| && r[i].key == key
    ensures o.Some? ==> exists i :: 0 <= i < |r| && r[i] == Entry(key, o.value)
  {
    if |r| == 0 then None
    else if r[0].key == key then Some(r[0].value)
    else Lookup(r[1..], key)
  }

  lemma {:induction false} LookupUnique<V>(r: Record<V>, j: nat)
    requires UniqueKeys(r) && j < |r|
    ensures Lookup(r, r[j].key) == Some(r[j].value)
  {
    if j > 0 {
      assert r[0].key != r[j].key;
      LookupUnique(r[1..], j - 1);
    }
  }

  /** `Object.values(obj).reduce((s, v) => s + v, 0)`. */
  function SumValues(r: Record<real>): real
  {
    if |r| == 0 then 0.0 else r[0].value + SumValues(r[1..])
  }

  /** `x || d` on an optional number: `undefined` and `0` are falsy. */
  function OrDefault(o: Option<real>, d: real): (r: real)
    ensures o.Some? && o.value != 0.0 ==> r == o.value
    ensures o.None? || o.value == 0.0 ==> r == d
  {
    if o.Some? && o.value != 0.0 then o.value else d
  }

  /** `Math.round(x)`: round half up. */
  function Round(x: real): (n: int)
    ensures x - 0.5 < n as real <= x + 0.5
  {
    (x + 0.5).Floor
  }

  /** `x` has no fractional part. */
  predicate IsWhole(x: real)
  {
    x.Floor as real == x
  }

  /** `Math.round(x * 100) / 100`. */
  function Round2(x: real): (r: real)
    ensures x - 0.005 < r <= x + 0.005
    ensures IsWhole(r * 100.0)
  {
    Round(x * 100.0) as real / 100.0
  }

  /** `Math.round(x * 10) / 10`. */
  function Round1(x: real): (r: real)
    ensures x - 0.05 < r <= x + 0.05
    ensures IsWhole(r * 10.0)
  {
    Round(x * 10.0) as real / 10.0
  }

  lemma RoundMonotone(x: real, y: real)
    requires x <= y
    ensures Round(x) <= Round(y)
  {
  }

  function Min(a: real, b: real): real { if a <= b then a else b }

  function Max(a: real, b: real): real { if a >= b then a else b }

  /** `r` is `s` with some elements left out, the others in their order. */
  ghost predicate IsSubsequence<T>(r: seq<T>, s: seq<T>)
    decreases |s|
  {
    && |r| <= |s|
    && (|r| == 0 || (r[0] == s[0] && IsSubsequence(r[1..], s[1..])) || IsSubsequence(r, s[1..]))
  }

  lemma {:induction false} MapSubsequence<T, U>(r: seq<T>, s: seq<T>, f: T -> U)
    requires IsSubsequence(r, s)
    ensures IsSubsequence(Map(r, f), Map(s, f))
    decreases |s|
  {
    if |r| > 0 {
      assert Map(r, f)[1..] == Map(r[1..], f);
      assert Map(s, f)[1..] == Map(s[1..], f);
      if r[0] == s[0] && IsSubsequence(r[1..], s[1..]) {
        MapSubsequence(r[1..], s[1..], f);
      } else {
        MapSubsequence(r, s[1..], f);
      }
    }
  }

  lemma SubsetCard<T>(a: set<T>, b: set<T>)
    requires a <= b
    ensures |a| <= |b|
  {
    assert b == a + (b - a);
  }

  /** The sum of a list of numbers. */
  function Sum(ws: seq<real>): real
  {
    if |ws| == 0 then 0.0 else ws[0] + Sum(ws[1..])
  }

  /** The sum of the pairwise products of two lists of numbers. */
  function Dot(xs: seq<real>, ws: seq<real>): real
    requires |xs| == |ws|
  {
    if |xs| == 0 then 0.0 else xs[0] * ws[0] + Dot(xs[1..], ws[1..])
  }

  /** Every weight is positive and every value lies within [lo, hi], stated element by element. */
  predicate Bounded(xs: seq<real>, ws: seq<real>, lo: real, hi: real)
    requires |xs| == |ws|
  {
    |xs| == 0 || (ws[0] > 0.0 && lo <= xs[0] <= hi && Bounded(xs[1..], ws[1..], lo, hi))
  }

  lemma {:induction false} BoundedAll(xs: seq<real>, ws: seq<real>, lo: real, hi: real)
    requires |xs| == |ws|
    requires forall i :: 0 <= i < |ws| ==> ws[i] > 0.0 && lo <= xs[i] <= hi
    ensures Bounded(xs, ws, lo, hi)
  {
    if |xs| > 0 {
      BoundedAll(xs[1..], ws[1..], lo, hi);
    }
  }

  /**
    One step of a weighted sum: with total weight T = w + t and weighted
    sum S = x * w + s, a term of value at least `lo` keeps S at least lo * T.
   */
  lemma AddLower(lo: real, x: real, w: real, s: real, t: real, S: real, T: real)
    requires lo <= x && w > 0.0 && lo * t <= s && T == w + t && S == x * w + s
    ensures lo * T <= S
  {
    assert lo * w <= x * w;
    assert lo * T == lo * w + lo * t;
  }

  lemma AddUpper(hi: real, x: real, w: real, s: real, t: real, S: real, T: real)
    requires x <= hi && w > 0.0 && s <= hi * t && T == w + t && S == x * w + s
    ensures S <= hi * T
  {
    assert x * w <= hi * w;
    assert hi * T == hi * w + hi * t;
  }

  /** With positive weights, values within [lo, hi] weigh in between lo and hi times the total weight. */
  lemma {:induction false} DotBounds(xs: seq<real>, ws: seq<real>, lo: real, hi: real)
    requires |xs| == |ws| && Bounded(xs, ws, lo, hi)
    ensures |xs| > 0 ==> Sum(ws) > 0.0
    ensures lo * Sum(ws) <= Dot(xs, ws) <= hi * Sum(ws)
  {
    if |xs| > 0 {
      DotBounds(xs[1..], ws[1..], lo, hi);
      AddLower(lo, xs[0], ws[0], Dot(xs[1..], ws[1..]), Sum(ws[1..]), Dot(xs, ws), Sum(ws));
      AddUpper(hi, xs[0], ws[0], Dot(xs[1..], ws[1..]), Sum(ws[1..]), Dot(xs, ws), Sum(ws));
    }
  }

  lemma QuotientBounds(s: real, t: real, lo: real, hi: real)
    requires t > 0.0 && lo * t <= s && s <= hi * t
    ensures lo <= s / t <= hi
  {
  }

  /** A weighted average, with positive weights, of values within [lo, hi] lies within [lo, hi]. */
  lemma DotAverage(xs: seq<real>, ws: seq<real>, lo: real, hi: real)
    requires |xs| == |ws| > 0 && Bounded(xs, ws, lo, hi)
    ensures Sum(ws) > 0.0
    ensures lo <= Dot(xs, ws) / Sum(ws) <= hi
  {
    DotBounds(xs, ws, lo, hi);
    QuotientBounds(Dot(xs, ws), Sum(ws), lo, hi);
  }

  /** `Array.prototype.filter`. */
  function Filter<T>(s: seq<T>, p: T -> bool): (r: seq<T>)
    ensures |r| <= |s|
    ensures forall i :: 0 <= i < |r| ==> p(r[i])
    ensures forall i :: 0 <= i < |r| ==> r[i] in s
    ensures forall i :: 0 <= i < |s| && p(s[i]) ==> s[i] in r
  {
    if |s| == 0 then []
    else
      var rest := Filter(s[1..], p);
      assert ([s[0]] + rest)[1..] == rest;
      if p(s[0]) then [s[0]] + rest else rest
  }

  /** Filtering keeps the survivors in their order. */
  lemma {:induction false} FilterSubsequence<T>(s: seq<T>, p: T -> bool)
    ensures IsSubsequence(Filter(s, p), s)
  {
    if |s| > 0 {
      FilterSubsequence(s[1..], p);
      var rest := Filter(s[1..], p);
      assert ([s[0]] + rest)[1..] == rest;
    }
  }

  /** Filtering keeps distinct keys distinct. */
  lemma {:induction false} FilterDistinct<T>(s: seq<T>, p: T -> bool, key: T -> string)
    requires forall i, j :: 0 <= i < j < |s| ==> key(s[i]) != key(s[j])
    ensures forall i, j :: 0 <= i < j < |Filter(s, p)| ==> key(Filter(s, p)[i]) != key(Filter(s, p)[j])
  {
    if |s| > 0 {
      var rest := Filter(s[1..], p);
      FilterDistinct(s[1..], p, key);
      if p(s[0]) {
        var r := [s[0]] + rest;
        assert Filter(s, p) == r;
        forall j | 0 <= j < |rest| ensures key(rest[j]) != key(s[0]) {
          assert rest[j] in s[1..];
          var k :| 0 <= k < |s[1..]| && s[1..][k] == rest[j];
          assert s[k + 1] == rest[j];
        }
        forall i, j | 0 <= i < j < |r| ensures key(r[i]) != key(r[j]) {
          assert r[j] == rest[j - 1];
          if i > 0 {
            assert r[i] == rest[i - 1];
          }
        }
      }
    }
  }

  /** Some element of `s` satisfies `p` (`s.some(p)`). */
  predicate Any<T>(s: seq<T>, p: T -> bool)
  {
    exists i :: 0 <= i < |s| && p(s[i])
  }

  /** Dropping an element that fails `p` does not change whether some element satisfies `p`. */
  lemma AnyWithout<T>(s: seq<T>, k: nat, p: T -> bool)
    requires k < |s| && !p(s[k])
    ensures Any(s[..k] + s[k + 1..], p) == Any(s, p)
  {
    var t := s[..k] + s[k + 1..];
    if Any(s, p) {
      var i :| 0 <= i < |s| && p(s[i]);
      if i < k {
        assert t[i] == s[i];
      } else {
        assert t[i - 1] == s[i];
      }
    }
    if Any(t, p) {
      var i :| 0 <= i < |t| && p(t[i]);
      if i < k {
        assert t[i] == s[i];
      } else {
        assert t[i] == s[i + 1];
      }
    }
  }

  /** `Array.prototype.map`. */
  function Map<T, U>(s: seq<T>, f: T -> U): (r: seq<U>)
    ensures |r| == |s|
    ensures forall i :: 0 <= i < |s| ==> r[i] == f(s[i])
  {
    if |s| == 0 then [] else [f(s[0])] + Map(s[1..], f)
  }

  /** `Array.prototype.findIndex`, with None for -1. */
  function FindIndex<T>(s: seq<T>, p: T -> bool): (o: Option<nat>)
    ensures o.None? <==> forall i :: 0 <= i < |s| ==> !p(s[i])
    ensures o.Some? ==> o.value < |s| && p(s[o.value])
    ensures o.Some? ==> forall j :: 0 <= j < o.value ==> !p(s[j])
  {
    if |s| == 0 then None
    else if p(s[0]) then Some(0)
    else match FindIndex(s[1..], p)
      case None => None
      case Some(i) => Some(i + 1)
  }

  /** `Array.prototype.find`: the first element satisfying `p`. */
  function Find<T>(s: seq<T>, p: T -> bool): (o: Option<T>)
    ensures o.None? <==> forall i :: 0 <= i < |s| ==> !p(s[i])
    ensures o.Some? ==> exists i :: 0 <= i < |s| && s[i] == o.value && p(o.value)
                          && forall j :: 0 <= j < i ==> !p(s[j])
  {
    match FindIndex(s, p)
    case None => None
    case Some(i) => Some(s[i])
  }

  /** `s.slice(0, n)`. */
  function Take<T>(s: seq<T>, n: nat): (r: seq<T>)
    ensures |r| == if n <= |s| then n else |s|
    ensures r == s[..|r|]
  {
    if n <= |s| then s[..n] else s
  }

  /** `hay.includes(needle)` on strings. */
  predicate Contains(hay: string, needle: string)
  {
    needle <= hay || (|hay| > 0 && Contains(hay[1..], needle))
  }

  /** The strings of a sequence, as a set. */
  function Elements(s: seq<string>): (r: set<string>)
    ensures forall x :: x in r <==> x in s
  {
    if |s| == 0 then {} else {s[0]} + Elements(s[1..])
  }
}
