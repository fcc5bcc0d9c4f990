/** The nearest-rank percentile of the reliability reports. */
module Percentile {
  import opened Wrappers
  import opened Ordering
  import opened Counting

  function Ceil(x: real): int {
    if x.Floor as real == x then x.Floor else x.Floor + 1
  }

  predicate Le(a: real, b: real) {
    a <= b
  }

  function Order(): (real, real) -> bool {
    (a: real, b: real) => Le(a, b)
  }

  function Max(a: int, b: int): int {
    if a >= b then a else b
  }

  /** The length times the quantile, rounded up. */
  function Share(n: nat, quantile: real): int {
    Ceil(n as real * quantile)
  }

  /** The index of the percentile, not below the first. */
  function Index(n: nat, quantile: real): nat {
    Max(0, Share(n, quantile) - 1)
  }

  /** No value for an empty list; a quantile above one runs off the end of the list. */
  function Percentile(values: seq<real>, quantile: real): Result<Option<real>, string> {
    if values == [] then Ok(None)
    else Pick(values, Index(|SortBy(values, Order())|, quantile))
  }

  function Pick(values: seq<real>, index: nat): Result<Option<real>, string> {
    var ordered := SortBy(values, Order());
    if index < |ordered| then Ok(Some(ordered[index])) else Err("IndexError")
  }

  function UpTo(bound: real): real -> bool {
    (x: real) => x <= bound
  }

  /** How many values a percentile must not lie below. */
  function Rank(n: nat, quantile: real): int {
    Max(1, Share(n, quantile))
  }

  lemma CeilIsLeast(x: real)
    ensures x <= Ceil(x) as real < x + 1.0
  {
  }

  lemma CeilMonotone(x: real, y: real)
    requires x <= y
    ensures Ceil(x) <= Ceil(y)
  {
    CeilIsLeast(x);
    CeilIsLeast(y);
    assert (Ceil(x) as real) < (Ceil(y) + 1) as real;
  }

  lemma Scaled(k: real, p: real, q: real)
    requires k >= 0.0 && p <= q
    ensures k * p <= k * q
  {
    assert k * (q - p) >= 0.0;
  }

  lemma ShareMonotone(n: nat, p: real, q: real)
    requires p <= q
    ensures Share(n, p) <= Share(n, q)
  {
    var k := n as real;
    Scaled(k, p, q);
    CeilMonotone(k * p, k * q);
  }

  lemma WholeShare(n: nat)
    ensures Share(n, 1.0) == n
  {
  }

  lemma CeilAbove(x: real, n: int)
    requires x > n as real
    ensures Ceil(x) > n
  {
    CeilIsLeast(x);
  }

  lemma Stretched(k: real, q: real)
    requires k >= 1.0 && q > 1.0
    ensures k * q > k
  {
    Scaled(q - 1.0, 1.0, k);
    assert (q - 1.0) * k == k * q - k;
  }

  lemma MoreThanAll(n: nat, quantile: real)
    requires n >= 1 && quantile > 1.0
    ensures Share(n, quantile) > n
  {
    Stretched(n as real, quantile);
    CeilAbove(n as real * quantile, n);
  }

  lemma RankFits(n: nat, quantile: real)
    requires n >= 1
    ensures Rank(n, quantile) <= n <==> quantile <= 1.0
  {
    if quantile <= 1.0 {
      ShareMonotone(n, quantile, 1.0);
      WholeShare(n);
    } else {
      MoreThanAll(n, quantile);
    }
  }

  lemma OrderIsTotal()
    ensures TotalPreorder(Order())
  {
  }

  lemma {:induction false} CountAtMost<T>(xs: seq<T>, p: T -> bool)
    ensures Count(xs, p) <= |xs|
  {
    if xs != [] { CountAtMost(xs[..|xs| - 1], p); }
  }

  lemma PrefixMeets<T>(xs: seq<T>, k: nat, p: T -> bool)
    requires k < |xs| && forall i :: 0 <= i <= k ==> p(xs[i])
    ensures Count(xs, p) > k
  {
    var front, back := xs[..k + 1], xs[k + 1..];
    CountAll(front, p);
    CountConcat(front, back, p);
    assert front + back == xs;
  }

  lemma SuffixMisses<T>(xs: seq<T>, k: nat, p: T -> bool)
    requires k <= |xs| && forall i :: k <= i < |xs| ==> !p(xs[i])
    ensures Count(xs, p) <= k
  {
    var front, back := xs[..k], xs[k..];
    CountAtMost(front, p);
    CountNone(back, p);
    CountConcat(front, back, p);
    assert front + back == xs;
  }

  /** In a sorted list, exactly the bounds from the k-th element up have more than `k` elements below them. */
  lemma SortedRank(xs: seq<real>, k: nat, bound: real)
    requires SortedBy(xs, Order()) && k < |xs|
    ensures Count(xs, UpTo(bound)) > k <==> xs[k] <= bound
  {
    if xs[k] <= bound {
      forall i | 0 <= i <= k ensures UpTo(bound)(xs[i]) {
        assert i < k ==> Order()(xs[i], xs[k]);
      }
      PrefixMeets(xs, k, UpTo(bound));
    } else {
      forall i | k <= i < |xs| ensures !UpTo(bound)(xs[i]) {
        assert k < i ==> Order()(xs[k], xs[i]);
      }
      SuffixMisses(xs, k, UpTo(bound));
    }
  }

  /** The element at an index of the sorted list is the least with more than `index` values not above it. */
  lemma PickIsLeast(values: seq<real>, index: nat, bound: real)
    ensures Pick(values, index).Ok? <==> index < |values|
    ensures index < |values| ==> Pick(values, index).value.Some? && Pick(values, index).value.value in values
    ensures index < |values| ==> (Count(values, UpTo(bound)) > index <==> Pick(values, index).value.value <= bound)
  {
    var ordered := SortBy(values, Order());
    OrderIsTotal();
    SortPermutes(values, Order());
    SortSorts(values, Order());
    if index < |values| {
      SortMembers(values, Order(), ordered[index]);
      CountPermuted(ordered, values, UpTo(bound));
      SortedRank(ordered, index, bound);
    }
  }

  lemma IndexFits(n: nat, quantile: real)
    requires n >= 1
    ensures Index(n, quantile) < n <==> quantile <= 1.0
    ensures Index(n, quantile) == Rank(n, quantile) - 1
  {
    RankFits(n, quantile);
  }

  lemma IndexMonotone(n: nat, p: real, q: real)
    requires p <= q
    ensures Index(n, p) <= Index(n, q)
  {
    ShareMonotone(n, p, q);
  }

  /** The result is an element, and exactly the bounds that at least `Rank` elements do not exceed are not below
      it: it is the least element with that many elements not above it. */
  lemma NearestRank(values: seq<real>, quantile: real, bound: real)
    requires values != []
    ensures var r := Percentile(values, quantile);
      && (r.Ok? <==> quantile <= 1.0)
      && (r.Ok? ==> r.value.Some? && r.value.value in values)
      && (r.Ok? ==> (Count(values, UpTo(bound)) >= Rank(|values|, quantile) <==> r.value.value <= bound))
  {
    SortPermutes(values, Order());
    IndexFits(|values|, quantile);
    PickIsLeast(values, Index(|values|, quantile), bound);
  }

  /** Only the empty list has no percentile, and only a quantile above one runs off the end of another list. */
  lemma PercentileExists(values: seq<real>, quantile: real)
    ensures Percentile(values, quantile) == Ok(None) <==> values == []
    ensures Percentile(values, quantile) == Err("IndexError") <==> values != [] && quantile > 1.0
  {
    if values != [] { NearestRank(values, quantile, 0.0); }
  }

  /** A higher quantile never gives a lower value. */
  lemma MonotoneInQuantile(values: seq<real>, p: real, q: real)
    requires values != [] && p <= q <= 1.0
    ensures var low, high := Percentile(values, p), Percentile(values, q);
      low.Ok? && high.Ok? && low.value.Some? && high.value.Some? && low.value.value <= high.value.value
  {
    SortPermutes(values, Order());
    IndexFits(|values|, p);
    IndexFits(|values|, q);
    IndexMonotone(|values|, p, q);
    PickMonotone(values, Index(|values|, p), Index(|values|, q));
  }

  lemma PickMonotone(values: seq<real>, i: nat, j: nat)
    requires i <= j < |values|
    ensures var low, high := Pick(values, i), Pick(values, j);
      low.Ok? && high.Ok? && low.value.Some? && high.value.Some? && low.value.value <= high.value.value
  {
    PickIsLeast(values, j, 0.0);
    var high := Pick(values, j).value.value;
    PickIsLeast(values, j, high);
    PickIsLeast(values, i, high);
  }

  /** The order of the list does not matter. */
  lemma ForgetsOrder(values: seq<real>, shuffled: seq<real>, quantile: real)
    requires multiset(values) == multiset(shuffled)
    ensures Percentile(values, quantile) == Percentile(shuffled, quantile)
  {
    OrderIsTotal();
    SortForgetsOrder(values, shuffled, Order());
    assert |multiset(values)| == |values| && |multiset(shuffled)| == |shuffled|;
  }
}
