/** XIP-1 settlement splitting: uniform parts, the remainder on the last. */
module SplitPlanner {
  import opened Arithmetic
  import opened Wrappers

  datatype SplitConfig = SplitConfig(splitThreshold: int, maxSubTrades: int, minSubTradeSize: int)

  datatype SubTrade = SubTrade(index: nat, amount: int)

  const MIN_SPLIT_THRESHOLD := 10_000_000_000_000_000_000

  predicate ValidConfig(c: SplitConfig) {
    c.splitThreshold >= MIN_SPLIT_THRESHOLD && 2 <= c.maxSubTrades <= 100 && c.minSubTradeSize > 0
  }

  function Sum(parts: seq<SubTrade>): int {
    if parts == [] then 0 else Sum(parts[..|parts| - 1]) + parts[|parts| - 1].amount
  }

  /** The most parts the threshold and the cap ask for. */
  function Wanted(total: int, c: SplitConfig): int
    requires ValidConfig(c)
  {
    var n := (total + c.splitThreshold - 1) / c.splitThreshold;
    if n < 2 then 2 else if n > c.maxSubTrades then c.maxSubTrades else n
  }

  /** The largest count of at most n parts whose base amount is no dust, and one if two are already too many. */
  ghost predicate IsCount(n: int, wanted: int, total: int, c: SplitConfig) {
    && 1 <= n <= wanted
    && (n > 1 ==> total / n >= c.minSubTradeSize)
    && (forall k :: 2 <= k <= wanted && n < k ==> total / k < c.minSubTradeSize)
  }

  /** n parts of the base amount, the last with what is left over. */
  ghost predicate IsUniform(parts: seq<SubTrade>, n: int, total: int)
    requires n > 0
  {
    && |parts| == n
    && (forall i :: 0 <= i < n ==> parts[i].index == i)
    && (forall i :: 0 <= i < n - 1 ==> parts[i].amount == total / n)
    && parts[n - 1].amount == total - total / n * (n - 1)
  }

  /** The split of a total: whole up to the threshold, otherwise uniform. */
  ghost predicate IsSplit(parts: seq<SubTrade>, total: int, c: SplitConfig)
    requires ValidConfig(c)
  {
    if total <= c.splitThreshold then parts == [SubTrade(0, total)]
    else exists n :: IsCount(n, Wanted(total, c), total, c) && IsUniform(parts, n, total)
  }

  lemma CountUnique(n: int, m: int, wanted: int, total: int, c: SplitConfig)
    requires IsCount(n, wanted, total, c) && IsCount(m, wanted, total, c)
    ensures n == m
  {
  }

  /** A total has one split. */
  lemma SplitUnique(a: seq<SubTrade>, b: seq<SubTrade>, total: int, c: SplitConfig)
    requires ValidConfig(c) && IsSplit(a, total, c) && IsSplit(b, total, c)
    ensures a == b
  {
    if total > c.splitThreshold {
      var n :| IsCount(n, Wanted(total, c), total, c) && IsUniform(a, n, total);
      var m :| IsCount(m, Wanted(total, c), total, c) && IsUniform(b, m, total);
      CountUnique(n, m, Wanted(total, c), total, c);
      forall i | 0 <= i < n ensures a[i] == b[i] {
        assert a[i].index == i && b[i].index == i;
      }
    }
  }

  lemma {:induction false} SumUniform(parts: seq<SubTrade>, base: int)
    requires forall i :: 0 <= i < |parts| ==> parts[i].amount == base
    ensures Sum(parts) == base * |parts|
  {
    if parts != [] {
      SumUniform(parts[..|parts| - 1], base);
      assert base * |parts| == base * (|parts| - 1) + base;
    }
  }

  lemma UniformSums(parts: seq<SubTrade>, n: int, total: int)
    requires n > 0 && IsUniform(parts, n, total)
    ensures Sum(parts) == total
  {
    SumUniform(parts[..n - 1], total / n);
  }

  lemma BaseTimes(total: int, n: int)
    requires n > 0
    ensures total / n * n <= total < total / n * n + n
  {
  }

  /** The last part is the base amount and the remainder, so no part is smaller than the base. */
  lemma UniformParts(parts: seq<SubTrade>, n: int, total: int, i: nat)
    requires n > 0 && IsUniform(parts, n, total) && i < n
    ensures total / n <= parts[i].amount < total / n + n
  {
    BaseTimes(total, n);
    var base := total / n;
    assert base * n == base * (n - 1) + base;
  }

  method PlanSplit(total: int, c: SplitConfig) returns (r: Result<seq<SubTrade>>)
    ensures r.Err? <==> total <= 0 || c.splitThreshold < 10_000_000_000_000_000_000
                        || c.maxSubTrades < 2 || c.maxSubTrades > 100 || c.minSubTradeSize <= 0
    ensures r.Ok? ==> IsSplit(r.value, total, c)
  {
    if c.splitThreshold < MIN_SPLIT_THRESHOLD || c.maxSubTrades < 2 || c.maxSubTrades > 100 || c.minSubTradeSize <= 0 {
      return Err;
    }
    if total <= 0 { return Err; }
    if total <= c.splitThreshold { return Ok([SubTrade(0, total)]); }
    var n := (total + c.splitThreshold - 1) / c.splitThreshold;
    if n < 2 { n := 2; }
    if n > c.maxSubTrades { n := c.maxSubTrades; }
    ghost var wanted := n;
    while n >= 2
      invariant 1 <= n <= wanted == Wanted(total, c)
      invariant forall k :: 2 <= k <= wanted && n < k ==> total / k < c.minSubTradeSize
    {
      var baseAmount := total / n;
      if baseAmount >= c.minSubTradeSize {
        var parts := UniformPlan(total, baseAmount, n);
        assert IsCount(n, wanted, total, c) && IsUniform(parts, n, total);
        return Ok(parts);
      }
      n := n - 1;
    }
    var whole := [SubTrade(0, total)];
    assert IsCount(1, wanted, total, c) && IsUniform(whole, 1, total);
    r := Ok(whole);
  }

  method UniformPlan(total: int, baseAmount: int, n: int) returns (parts: seq<SubTrade>)
    requires n > 0 && baseAmount == total / n
    ensures IsUniform(parts, n, total)
  {
    parts := [];
    for i := 0 to n - 1
      invariant |parts| == i && forall k :: 0 <= k < i ==> parts[k] == SubTrade(k, baseAmount)
    {
      parts := parts + [SubTrade(i, baseAmount)];
    }
    parts := parts + [SubTrade(n - 1, total - baseAmount * (n - 1))];
  }

  /** What a plan promises: parts that add up, none of dust, two to `maxSubTrades` of them if more than one. */
  ghost predicate Plans(parts: seq<SubTrade>, total: int, c: SplitConfig) {
    && 1 <= |parts| <= c.maxSubTrades && Sum(parts) == total
    && (forall i :: 0 <= i < |parts| ==> parts[i].index == i && parts[i].amount > 0)
    && (|parts| > 1 ==> total > c.splitThreshold && forall i :: 0 <= i < |parts| ==> parts[i].amount >= c.minSubTradeSize)
    && (|parts| == 1 && total > c.splitThreshold ==> total / 2 < c.minSubTradeSize)
  }

  lemma SplitPlans(parts: seq<SubTrade>, total: int, c: SplitConfig)
    requires ValidConfig(c) && total > 0 && IsSplit(parts, total, c)
    ensures Plans(parts, total, c)
  {
    if total <= c.splitThreshold {
      assert Sum(parts) == total;
    } else {
      var n :| IsCount(n, Wanted(total, c), total, c) && IsUniform(parts, n, total);
      UniformPlans(parts, n, total, c);
    }
  }

  /** Fewer parts than the quotient rounded up leave more than the threshold for each. */
  lemma RoundedUp(total: int, threshold: int, m: int)
    requires total > 0 && threshold > 0 && m >= 1
    ensures m < (total + threshold - 1) / threshold <==> m * threshold < total
  {
    var q := (total + threshold - 1) / threshold;
    assert q * threshold <= total + threshold - 1 < q * threshold + threshold;
    if m < q {
      TimesMonotone(m, q - 1, threshold);
      assert (q - 1) * threshold == q * threshold - threshold;
    } else {
      TimesMonotone(q, m, threshold);
    }
  }

  /**
   Above the threshold the split has the fewest parts, two or more, that come down to the threshold on
   average, unless the cap or the smallest part stops it sooner: one more part would then be one too
   many, or dust. It is whole only if two parts would be dust.
   */
  lemma SplitIsLeast(parts: seq<SubTrade>, total: int, c: SplitConfig)
    requires ValidConfig(c) && total > c.splitThreshold && IsSplit(parts, total, c)
    ensures var n := |parts|;
            && (forall m :: 2 <= m < n ==> m * c.splitThreshold < total)
            && (n * c.splitThreshold >= total || n == c.maxSubTrades || total / (n + 1) < c.minSubTradeSize)
            && (n > 1 ==> n <= c.maxSubTrades && total / n >= c.minSubTradeSize)
  {
    var n :| IsCount(n, Wanted(total, c), total, c) && IsUniform(parts, n, total);
    forall m | 2 <= m < n ensures m * c.splitThreshold < total {
      RoundedUp(total, c.splitThreshold, m);
    }
    RoundedUp(total, c.splitThreshold, n);
  }

  lemma UniformPlans(parts: seq<SubTrade>, n: int, total: int, c: SplitConfig)
    requires ValidConfig(c) && total > c.splitThreshold
    requires IsCount(n, Wanted(total, c), total, c) && IsUniform(parts, n, total)
    ensures Plans(parts, total, c)
  {
    UniformSums(parts, n, total);
    forall i | 0 <= i < n ensures parts[i].amount > 0 && (n > 1 ==> parts[i].amount >= c.minSubTradeSize) {
      UniformParts(parts, n, total, i);
    }
  }
}
