/**
The reported 95th percentile: latencies rounded up to whole milliseconds are counted in a
histogram, and one scan over its sorted items finds the bin of the nearest rank.
 */
module Percentile {
  /** The least integer not below `x`. */
  function Ceil(x: real): (r: int)
    ensures r as real - 1.0 < x <= r as real
  {
    if x.Floor as real == x then x.Floor else x.Floor + 1
  }

  function CeilAll(xs: seq<real>): (r: seq<int>)
    ensures |r| == |xs| && forall i :: 0 <= i < |xs| ==> r[i] == Ceil(xs[i])
  {
    seq(|xs|, i requires 0 <= i < |xs| => Ceil(xs[i]))
  }

  /** The nearest rank of the 95th percentile among `n` samples: 95 n / 100 rounded up. */
  function Rank(n: nat): (r: nat)
    ensures 95 * n <= 100 * r < 95 * n + 100
  {
    (95 * n + 99) / 100
  }

  const FACTOR := 8556839292003942.0 / 9007199254740992.0

  /** The product `samples * 0.95` in double precision: 0.95 is the double `FACTOR`, rounding
      errs by at most 2^-53 of the product and never crosses an integer, since every integer
      in range is a double. */
  ghost predicate RoundedProduct(n: nat, product: real) {
    var exact := n as real * FACTOR;
    && exact - exact / 9007199254740992.0 <= product <= exact + exact / 9007199254740992.0
    && exact.Floor as real <= product <= Ceil(exact) as real
  }

  /** Rounding never changes the rank. */
  lemma RankIsExact(n: nat, product: real)
    requires n < 281474976710656 && RoundedProduct(n, product)
    ensures Ceil(product) == Rank(n)
  {
    var r, exact := Rank(n), n as real * FACTOR;
    assert exact <= 0.95 * n as real <= r as real;
    assert Ceil(exact) <= r;
    assert exact >= 0.95 * n as real - n as real / 9007199254740992.0;
    assert exact / 9007199254740992.0 <= n as real / 9007199254740992.0 < 1.0 / 32.0;
    assert 100 * r <= 95 * n + 95 by { assert 100 * r - 95 * n == 5 * (20 * r - 19 * n); }
  }

  /** How many of `xs` are at most, or below, `v`. */
  function AtMost(xs: seq<int>, v: int): (r: nat)
    ensures r <= |xs|
  {
    if xs == [] then 0 else AtMost(xs[..|xs| - 1], v) + if xs[|xs| - 1] <= v then 1 else 0
  }

  function RealsAtMost(xs: seq<real>, v: real): nat {
    if xs == [] then 0 else RealsAtMost(xs[..|xs| - 1], v) + if xs[|xs| - 1] <= v then 1 else 0
  }

  function RealsBelow(xs: seq<real>, v: real): nat {
    if xs == [] then 0 else RealsBelow(xs[..|xs| - 1], v) + if xs[|xs| - 1] < v then 1 else 0
  }

  /** `v` is the element of rank `rank` of the whole numbers `xs` in ascending order. */
  ghost predicate Ranked(xs: seq<int>, rank: nat, v: int) {
    AtMost(xs, v - 1) < rank <= AtMost(xs, v)
  }

  /** `v` is the element of rank `rank` of `xs` in ascending order. */
  ghost predicate RankedReal(xs: seq<real>, rank: nat, v: real) {
    RealsBelow(xs, v) < rank <= RealsAtMost(xs, v)
  }

  lemma {:induction false} AtMostGrows(xs: seq<int>, v: int, w: int)
    requires v <= w
    ensures AtMost(xs, v) <= AtMost(xs, w)
  {
    if xs != [] { AtMostGrows(xs[..|xs| - 1], v, w); }
  }

  lemma RankedOnce(xs: seq<int>, rank: nat, v: int, w: int)
    requires Ranked(xs, rank, v) && Ranked(xs, rank, w)
    ensures v == w
  {
    if v < w { AtMostGrows(xs, v, w - 1); }
    if w < v { AtMostGrows(xs, w, v - 1); }
  }

  lemma {:induction false} CeilCounts(xs: seq<real>, v: real)
    ensures RealsAtMost(xs, v) <= AtMost(CeilAll(xs), Ceil(v))
    ensures AtMost(CeilAll(xs), Ceil(v) - 1) <= RealsBelow(xs, v)
  {
    if xs != [] {
      CeilCounts(xs[..|xs| - 1], v);
      assert CeilAll(xs)[..|xs| - 1] == CeilAll(xs[..|xs| - 1]);
    }
  }

  /** Rounding up first and ranking afterwards gives the exact percentile rounded up. */
  lemma CeilKeepsRank(xs: seq<real>, rank: nat, exact: real, binned: int)
    requires RankedReal(xs, rank, exact) && Ranked(CeilAll(xs), rank, binned)
    ensures binned == Ceil(exact)
  {
    CeilCounts(xs, exact);
    RankedOnce(CeilAll(xs), rank, Ceil(exact), binned);
  }

  /** A bin of the histogram: a millisecond value and how often it was counted. */
  datatype Item = Item(milliseconds: int, count: nat)

  ghost predicate Sorted(items: seq<Item>) {
    forall i, j :: 0 <= i < j < |items| ==> items[i].milliseconds < items[j].milliseconds
  }

  /** How often the bins count `m`, and how many samples they count in all. */
  function Count(items: seq<Item>, m: int): nat {
    if items == [] then 0
    else Count(items[..|items| - 1], m) + if items[|items| - 1].milliseconds == m then items[|items| - 1].count else 0
  }

  function Total(items: seq<Item>): nat {
    if items == [] then 0 else Total(items[..|items| - 1]) + items[|items| - 1].count
  }

  /** How often `xs` holds `m`. */
  function Tally(xs: seq<int>, m: int): nat {
    if xs == [] then 0 else Tally(xs[..|xs| - 1], m) + if xs[|xs| - 1] == m then 1 else 0
  }

  lemma {:induction false} TallyIsMultiset(xs: seq<int>, m: int)
    ensures Tally(xs, m) == multiset(xs)[m]
  {
    if xs != [] {
      TallyIsMultiset(xs[..|xs| - 1], m);
      assert xs == xs[..|xs| - 1] + [xs[|xs| - 1]];
    }
  }

  /** The sorted items of the counter that counted `xs`. */
  ghost predicate Histogram(items: seq<Item>, xs: seq<int>) {
    Sorted(items) && forall m :: Count(items, m) == Tally(xs, m)
  }

  lemma {:induction false} CountAbove(items: seq<Item>, m: int)
    requires forall i :: 0 <= i < |items| ==> items[i].milliseconds < m
    ensures Count(items, m) == 0
  {
    if items != [] { CountAbove(items[..|items| - 1], m); }
  }

  /** The samples outside one bin. */
  function Without(xs: seq<int>, m: int): seq<int> {
    if xs == [] then []
    else if xs[|xs| - 1] == m then Without(xs[..|xs| - 1], m)
    else Without(xs[..|xs| - 1], m) + [xs[|xs| - 1]]
  }

  lemma {:induction false} WithoutTally(xs: seq<int>, m: int, k: int)
    ensures Tally(Without(xs, m), k) == if k == m then 0 else Tally(xs, k)
  {
    if xs != [] {
      var n := |xs| - 1;
      WithoutTally(xs[..n], m, k);
      assert (Without(xs[..n], m) + [xs[n]])[..|Without(xs[..n], m)|] == Without(xs[..n], m);
    }
  }

  lemma AtMostAppend(xs: seq<int>, x: int, v: int)
    ensures AtMost(xs + [x], v) == AtMost(xs, v) + if x <= v then 1 else 0
  {
    assert (xs + [x])[..|xs|] == xs;
  }

  lemma {:induction false} WithoutCounts(xs: seq<int>, m: int, v: int)
    ensures AtMost(xs, v) == AtMost(Without(xs, m), v) + if m <= v then Tally(xs, m) else 0
  {
    if xs != [] {
      var n := |xs| - 1;
      WithoutCounts(xs[..n], m, v);
      AtMostAppend(Without(xs[..n], m), xs[n], v);
    }
  }

  lemma LastTally(xs: seq<int>)
    requires xs != []
    ensures exists m :: Tally(xs, m) > 0
  {
    assert Tally(xs, xs[|xs| - 1]) > 0;
  }

  lemma NoBins(xs: seq<int>)
    requires Histogram([], xs)
    ensures xs == []
  {
    if xs != [] { LastTally(xs); }
  }

  /** Dropping the last bin drops its samples. */
  lemma LastBin(items: seq<Item>, xs: seq<int>)
    requires Histogram(items, xs) && items != []
    ensures var last := items[|items| - 1];
      Tally(xs, last.milliseconds) == last.count && Histogram(items[..|items| - 1], Without(xs, last.milliseconds))
  {
    var last := items[|items| - 1];
    CountAbove(items[..|items| - 1], last.milliseconds);
    assert Count(items, last.milliseconds) == last.count;
    forall m ensures Count(items[..|items| - 1], m) == Tally(Without(xs, last.milliseconds), m) {
      assert Count(items, m) == Tally(xs, m);
      WithoutTally(xs, last.milliseconds, m);
    }
  }

  /** The first `k` bins count exactly the samples up to the last of them. */
  lemma {:induction false} PrefixCounts(items: seq<Item>, xs: seq<int>, k: nat, v: int)
    requires Histogram(items, xs) && k <= |items|
    requires forall i :: 0 <= i < k ==> items[i].milliseconds <= v
    requires forall i :: k <= i < |items| ==> v < items[i].milliseconds
    ensures Total(items[..k]) == AtMost(xs, v)
  {
    if items == [] {
      NoBins(xs);
    } else {
      var n := |items| - 1;
      LastBin(items, xs);
      WithoutCounts(xs, items[n].milliseconds, v);
      if k == |items| {
        assert items[..k] == items && items[..n][..n] == items[..n];
        PrefixCounts(items[..n], Without(xs, items[n].milliseconds), n, v);
      } else {
        assert items[..n][..k] == items[..k];
        PrefixCounts(items[..n], Without(xs, items[n].milliseconds), k, v);
      }
    }
  }

  lemma {:induction false} TotalCounts(items: seq<Item>, xs: seq<int>)
    requires Histogram(items, xs)
    ensures Total(items) == |xs|
  {
    if items == [] {
      NoBins(xs);
    } else {
      var last := items[|items| - 1].milliseconds;
      LastBin(items, xs);
      TotalCounts(items[..|items| - 1], Without(xs, last));
      WithoutSize(xs, last);
    }
  }

  lemma {:induction false} WithoutSize(xs: seq<int>, m: int)
    ensures |xs| == |Without(xs, m)| + Tally(xs, m)
  {
    if xs != [] {
      WithoutSize(xs[..|xs| - 1], m);
      assert xs == xs[..|xs| - 1] + [xs[|xs| - 1]];
    }
  }

  /**
  The scan of `_point`: with samples, the value of rank `Rank(|xs|)`.  `xs` stands for the
  samples the sorted items count, `product` for the double `samples * 0.95`.
   */
  method Scan(items: seq<Item>, product: real, ghost xs: seq<int>) returns (p95: int)
    requires Histogram(items, xs) && xs != [] && |xs| < 281474976710656 && RoundedProduct(|xs|, product)
    ensures Ranked(xs, Rank(|xs|), p95)
    ensures exists i :: 0 <= i < |items| && items[i].milliseconds == p95 && items[i].count > 0
  {
    var samples := 0;
    for i := 0 to |items|
      invariant samples == Total(items[..i])
    {
      assert items[..i + 1][..i] == items[..i];
      samples := samples + items[i].count;
    }
    assert items[..|items|] == items;
    TotalCounts(items, xs);
    RankIsExact(samples, product);
    var remaining := Ceil(product);
    p95 := 0;
    for i := 0 to |items|
      invariant remaining == Rank(samples) - Total(items[..i]) > 0
    {
      assert items[..i + 1][..i] == items[..i];
      remaining := remaining - items[i].count;
      if remaining <= 0 {
        p95 := items[i].milliseconds;
        PrefixCounts(items, xs, i, p95 - 1);
        PrefixCounts(items, xs, i + 1, p95);
        return;
      }
    }
    assert false;
  }

  lemma {:induction false} Least(h: multiset<int>) returns (m: int)
    requires h != multiset{}
    ensures m in h && forall x :: x in h ==> m <= x
    decreases |h|
  {
    assert exists y :: y in h by {
      if forall y :: y !in h { assert false; }
    }
    var y :| y in h;
    var rest := h[y := 0];
    if rest == multiset{} {
      m := y;
      forall x | x in h ensures y <= x { assert x != y ==> rest[x] > 0; }
    } else {
      m := Least(rest);
      if y < m { m := y; }
      forall x | x in h ensures m <= x { assert x != y ==> x in rest; }
    }
  }

  /** `sorted(histogram.items())`. */
  method SortedItems(h: multiset<int>) returns (items: seq<Item>)
    ensures Sorted(items) && forall m :: Count(items, m) == h[m]
  {
    items := [];
    var rest := h;
    while rest != multiset{}
      invariant Sorted(items) && forall m :: Count(items, m) + rest[m] == h[m]
      invariant forall i, x :: 0 <= i < |items| && x in rest ==> items[i].milliseconds < x
      decreases |rest|
    {
      ghost var low := Least(rest);
      var m :| m in rest && forall x :: x in rest ==> m <= x;
      ghost var before := items;
      items := items + [Item(m, rest[m])];
      assert items[..|before|] == before;
      rest := rest[m := 0];
    }
  }

  /**
  For any latencies, however their bins were gathered, the reported value is the exact
  nearest-rank 95th percentile rounded up to whole milliseconds.
   */
  lemma HistogramPercentileIsExact(latencies: seq<real>, exact: real, reported: int)
    requires RankedReal(latencies, Rank(|latencies|), exact)
    requires Ranked(CeilAll(latencies), Rank(|latencies|), reported)
    ensures reported == Ceil(exact)
    ensures reported as real - 1.0 < exact <= reported as real
  {
    CeilKeepsRank(latencies, Rank(|latencies|), exact, reported);
  }

  /** The greatest latency below `v`, if any is. */
  lemma {:induction false} NextBelow(xs: seq<real>, v: real) returns (w: real)
    requires RealsBelow(xs, v) > 0
    ensures w in xs && w < v && RealsAtMost(xs, w) == RealsBelow(xs, v)
  {
    var n := |xs| - 1;
    if RealsBelow(xs[..n], v) == 0 {
      w := xs[n];
      NoneBelow(xs[..n], v, w);
    } else {
      w := NextBelow(xs[..n], v);
      if w < xs[n] < v {
        NoneBetween(xs[..n], w, xs[n], v);
        w := xs[n];
      }
    }
  }

  lemma {:induction false} NoneBelow(xs: seq<real>, v: real, w: real)
    requires RealsBelow(xs, v) == 0 && w < v
    ensures RealsAtMost(xs, w) == 0
  {
    if xs != [] { NoneBelow(xs[..|xs| - 1], v, w); }
  }

  lemma {:induction false} NoneBetween(xs: seq<real>, w: real, x: real, v: real)
    requires w <= x < v
    ensures RealsAtMost(xs, w) <= RealsAtMost(xs, x) <= RealsBelow(xs, v)
  {
    if xs != [] { NoneBetween(xs[..|xs| - 1], w, x, v); }
  }

  lemma {:induction false} MemberCounts(xs: seq<real>, v: real)
    requires v in xs
    ensures RealsBelow(xs, v) < RealsAtMost(xs, v)
  {
    var n := |xs| - 1;
    if v in xs[..n] { MemberCounts(xs[..n], v); } else { BelowAtMost(xs[..n], v); }
  }

  lemma {:induction false} BelowAtMost(xs: seq<real>, v: real)
    ensures RealsBelow(xs, v) <= RealsAtMost(xs, v)
  {
    if xs != [] { BelowAtMost(xs[..|xs| - 1], v); }
  }

  lemma {:induction false} Descend(xs: seq<real>, rank: nat, v: real) returns (exact: real)
    requires v in xs && 1 <= rank <= RealsAtMost(xs, v)
    ensures exact in xs && RankedReal(xs, rank, exact)
    decreases RealsBelow(xs, v)
  {
    exact := v;
    if rank <= RealsBelow(xs, v) {
      var w := NextBelow(xs, v);
      MemberCounts(xs, w);
      exact := Descend(xs, rank, w);
    }
  }

  lemma {:induction false} Greatest(xs: seq<real>) returns (v: real)
    requires xs != []
    ensures v in xs && RealsAtMost(xs, v) == |xs|
  {
    var n := |xs| - 1;
    v := xs[n];
    if n > 0 {
      var w := Greatest(xs[..n]);
      if v < w { v := w; } else { AtMostAll(xs[..n], w, v); }
    }
  }

  lemma {:induction false} AtMostAll(xs: seq<real>, w: real, v: real)
    requires w <= v && RealsAtMost(xs, w) == |xs|
    ensures RealsAtMost(xs, v) == |xs|
  {
    if xs != [] { AtMostSize(xs[..|xs| - 1], w); AtMostAll(xs[..|xs| - 1], w, v); }
  }

  lemma {:induction false} AtMostSize(xs: seq<real>, v: real)
    ensures RealsAtMost(xs, v) <= |xs|
  {
    if xs != [] { AtMostSize(xs[..|xs| - 1], v); }
  }

  /** Every rank has an exact percentile among the latencies. */
  lemma PercentileExists(latencies: seq<real>, rank: nat) returns (exact: real)
    requires 1 <= rank <= |latencies|
    ensures exact in latencies && RankedReal(latencies, rank, exact)
  {
    var v := Greatest(latencies);
    exact := Descend(latencies, rank, v);
  }
}
