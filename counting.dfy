/** Counting over finite sequences: filtered counts, histograms (Python counter dicts), sums of a
    dict's values, first-occurrence key order, and exact percentages. */
module Counting {

  /** `len([x for x in xs if p(x)])`. */
  function Count<T>(xs: seq<T>, p: T -> bool): (n: nat)
    ensures n <= |xs|
  {
    if xs == [] then 0
    else Count(xs[..|xs| - 1], p) + (if p(xs[|xs| - 1]) then 1 else 0)
  }

  lemma CountSnoc<T>(xs: seq<T>, x: T, p: T -> bool)
    ensures Count(xs + [x], p) == Count(xs, p) + (if p(x) then 1 else 0)
  {
    assert (xs + [x])[..|xs|] == xs;
  }

  /** `[x for x in xs if p(x)]`: the elements that satisfy `p`, in their order in `xs`. */
  function Filter<T>(xs: seq<T>, p: T -> bool): (r: seq<T>)
    ensures |r| == Count(xs, p)
    ensures forall i :: 0 <= i < |r| ==> p(r[i]) && r[i] in xs
  {
    if xs == [] then []
    else
      var init, x := xs[..|xs| - 1], xs[|xs| - 1];
      assert forall y :: y in init ==> y in xs;
      Filter(init, p) + (if p(x) then [x] else [])
  }

  /** The number of times `x` occurs in `xs`. */
  function Occurrences<T(==)>(xs: seq<T>, x: T): (n: nat)
    ensures n <= |xs|
    ensures n > 0 <==> x in xs
  {
    if xs == [] then 0
    else
      assert xs == xs[..|xs| - 1] + [xs[|xs| - 1]];
      Occurrences(xs[..|xs| - 1], x) + (if xs[|xs| - 1] == x then 1 else 0)
  }

  lemma OccurrencesSnoc<T>(xs: seq<T>, x: T, y: T)
    ensures Occurrences(xs + [x], y) == Occurrences(xs, y) + (if x == y then 1 else 0)
  {
    assert (xs + [x])[..|xs|] == xs;
  }

  /** `d.get(k, 0)` on a counter dict. */
  function CountIn<K>(h: map<K, nat>, k: K): nat {
    if k in h then h[k] else 0
  }

  /** The counter dict of `xs`: each distinct element mapped to its number of occurrences. */
  function Histogram<T(==)>(xs: seq<T>): map<T, nat> {
    map x | x in xs :: Occurrences(xs, x)
  }

  /** `h[k] = h.get(k, 0) + 1`. */
  function Bump<K>(h: map<K, nat>, k: K): (h': map<K, nat>)
    ensures h'.Keys == h.Keys + {k}
  {
    h[k := CountIn(h, k) + 1]
  }

  /** Counting one more element updates the histogram exactly as one counter increment does. */
  lemma HistogramSnoc<T>(xs: seq<T>, x: T)
    ensures Histogram(xs + [x]) == Bump(Histogram(xs), x)
  {
    var h, h' := Histogram(xs), Histogram(xs + [x]);
    forall y | y in h'
      ensures y in Bump(h, x) && h'[y] == Bump(h, x)[y]
    {
      OccurrencesSnoc(xs, x, y);
    }
    forall y | y in Bump(h, x)
      ensures y in h'
    {
      OccurrencesSnoc(xs, x, y);
    }
  }

  /** Some key of a non-empty map. */
  ghost function AnyKey<K>(m: map<K, nat>): (k: K)
    requires |m| > 0
    ensures k in m
  {
    assert m.Keys != {} by { assert |m.Keys| > 0; }
    var k :| k in m.Keys; k
  }

  /** `sum(m.values())`. */
  ghost function MapSum<K>(m: map<K, nat>): nat
    decreases |m|
  {
    if |m| == 0 then 0
    else
      var k := AnyKey(m);
      assert |(m - {k}).Keys| < |m.Keys| by {
        assert (m - {k}).Keys == m.Keys - {k};
      }
      m[k] + MapSum(m - {k})
  }

  /** The sum does not depend on the key taken out first. */
  lemma {:induction false} MapSumRemove<K>(m: map<K, nat>, k: K)
    requires k in m
    ensures MapSum(m) == m[k] + MapSum(m - {k})
    decreases |m|
  {
    var j := AnyKey(m);
    if j != k {
      var mj, mk := m - {j}, m - {k};
      assert mj.Keys == m.Keys - {j};
      assert mk.Keys == m.Keys - {k};
      assert MapSum(m) == m[j] + MapSum(mj);
      MapSumRemove(mj, k);
      MapSumRemove(mk, j);
      assert mj - {k} == mk - {j};
    }
  }

  lemma MapSumUpdate<K>(m: map<K, nat>, k: K, v: nat)
    ensures MapSum(m[k := v]) == MapSum(m - {k}) + v
  {
    MapSumRemove(m[k := v], k);
    assert m[k := v] - {k} == m - {k};
  }

  /** Setting one counter changes the sum by the difference. */
  lemma MapSumReplace<K>(m: map<K, nat>, k: K, v: nat)
    ensures MapSum(m[k := v]) + CountIn(m, k) == MapSum(m) + v
  {
    MapSumUpdate(m, k, v);
    if k in m {
      MapSumRemove(m, k);
    } else {
      assert m - {k} == m;
    }
  }

  /** One increment of a counter adds one to the sum of the counters. */
  lemma MapSumBump<K>(h: map<K, nat>, k: K)
    ensures MapSum(Bump(h, k)) == MapSum(h) + 1
  {
    assert Bump(h, k) == h[k := CountIn(h, k) + 1];
    MapSumReplace(h, k, CountIn(h, k) + 1);
  }

  /** A histogram's counts add up to the number of elements counted. */
  lemma {:induction false} HistogramSum<T>(xs: seq<T>)
    ensures MapSum(Histogram(xs)) == |xs|
  {
    if xs == [] {
      assert Histogram(xs) == map[];
    } else {
      var ys, y := xs[..|xs| - 1], xs[|xs| - 1];
      assert xs == ys + [y];
      HistogramSum(ys);
      HistogramSnoc(ys, y);
      MapSumBump(Histogram(ys), y);
    }
  }

  predicate Distinct<T(==)>(xs: seq<T>) {
    forall i, j :: 0 <= i < j < |xs| ==> xs[i] != xs[j]
  }

  /** A list without repeats has as many elements as its set. */
  lemma {:induction false} DistinctCard<T>(xs: seq<T>)
    requires Distinct(xs)
    ensures |set x | x in xs| == |xs|
  {
    if xs != [] {
      var init, last := xs[..|xs| - 1], xs[|xs| - 1];
      DistinctCard(init);
      assert xs == init + [last];
      assert (set x | x in xs) == (set x | x in init) + {last};
      assert last !in init;
    }
  }

  /** The distinct elements of `xs` in the order they first appear: the key order of a Python
      dict that is filled by walking `xs`. */
  function FirstOccurrences<T(==)>(xs: seq<T>): (r: seq<T>)
    ensures forall i :: 0 <= i < |r| ==> r[i] in xs
    ensures forall i :: 0 <= i < |xs| ==> xs[i] in r
    ensures forall i, j :: 0 <= i < j < |r| ==> r[i] != r[j]
    ensures forall i, j, k :: 0 <= i < j < |r| && 0 <= k < |xs| && xs[k] == r[j] ==> r[i] in xs[..k]
  {
    if xs == [] then []
    else
      var init, last := xs[..|xs| - 1], xs[|xs| - 1];
      assert xs == init + [last];
      var r := FirstOccurrences(init);
      if last in r then r else r + [last]
  }

  /** `part / whole * 100` when `whole > 0`, else 0, computed exactly. */
  function Percentage(part: int, whole: int): (r: real)
    ensures whole <= 0 ==> r == 0.0
    ensures whole > 0 ==> r * whole as real == part as real * 100.0
    ensures 0 <= part <= whole ==> 0.0 <= r <= 100.0
  {
    if whole > 0 then part as real / whole as real * 100.0 else 0.0
  }

  /** Shares of a whole split into parts add up to 100 percent. */
  lemma PercentagesAdd(a: int, b: int, whole: int)
    requires whole > 0
    ensures Percentage(a, whole) + Percentage(b, whole) == Percentage(a + b, whole)
  {
    var w := whole as real;
    var p, q, r := Percentage(a, whole), Percentage(b, whole), Percentage(a + b, whole);
    assert (p + q) * w == p * w + q * w;
    CancelPositive(p + q, r, w);
  }

  lemma CancelPositive(x: real, y: real, w: real)
    requires w > 0.0 && x * w == y * w
    ensures x == y
  {
  }

  lemma PercentageOfWhole(whole: int)
    requires whole > 0
    ensures Percentage(whole, whole) == 100.0
  {
  }
}
