/** XIP-2 execution planning: split, route, schedule, composed by position. */
module ExecutionOrchestrator {
  import opened SplitPlanner
  import opened VenueRouter
  import opened DiffusionScheduler
  import opened StableSort
  import opened Wrappers

  datatype ExecutionConfig = ExecutionConfig(split: SplitConfig, maxGasBudget: int, maxSlippageBps: int,
                                             window: Seconds, preference: seq<Named>)

  datatype Constraints = Constraints(score: Score, gas: Venue -> int)

  /** Every check before the split; a window that is not a number is left to the scheduler. */
  predicate ValidExecution(c: ExecutionConfig) {
    && c.maxGasBudget >= 0 && 1 <= c.maxSlippageBps <= 10_000
    && !(c.window.Finite? && c.window.x < 0.0) && c.preference != []
  }

  function RoutingOf(c: ExecutionConfig, k: Constraints): Routing {
    Routing(c.preference, k.score, k.gas, c.maxGasBudget)
  }

  function Total(s: seq<Scheduled>): int {
    if s == [] then 0 else Total(s[..|s| - 1]) + s[|s| - 1].amount
  }

  /** The gas its venues are estimated to take. */
  function Gas(s: seq<Scheduled>, gas: Venue -> int): int {
    if s == [] then 0 else Gas(s[..|s| - 1], gas) + gas(s[|s| - 1].venue)
  }

  /** What an accepted plan promises. */
  ghost predicate Executes(s: seq<Scheduled>, total: int, c: ExecutionConfig, k: Constraints)
    requires k.score.Finite?
  {
    && 1 <= |s| <= c.split.maxSubTrades && Total(s) == total
    && (|s| > 1 ==> total > c.split.splitThreshold && forall i :: 0 <= i < |s| ==> s[i].amount >= c.split.minSubTradeSize)
    && (|s| == 1 && total > c.split.splitThreshold ==> total / 2 < c.split.minSubTradeSize)
    && (forall i :: 0 <= i < |s| ==> s[i].index == i && s[i].amount > 0
                                     && Known(s[i].venue) in c.preference && k.score.x >= MinScore(s[i].venue))
    && (c.maxGasBudget > 0 ==> Gas(s, k.gas) <= c.maxGasBudget)
    && (!Regains(RoutingOf(c, k)) ==>
          forall i, j :: 0 <= i < |s| && 0 <= j < |s| && s[i].amount > s[j].amount ==> Rank(s[i].venue) <= Rank(s[j].venue))
  }

  /** When its sub-trades go out: all at once without a window, else 12 seconds apart inside it. */
  ghost predicate Diffused(s: seq<Scheduled>, window: Seconds) {
    && window.Finite?
    && (window.x == 0.0 ==> forall i :: 0 <= i < |s| ==> s[i].at == 0)
    && (window.x > 0.0 ==> forall i, j :: 0 <= i < j < |s| ==> s[j].at - s[i].at >= MIN_SPACING_SECONDS)
    && (forall i :: 0 <= i < |s| ==> 0 <= s[i].at && s[i].at as real <= window.x)
  }

  lemma {:induction false} PairedTotals(parts: seq<SubTrade>, routed: seq<Assignment>, s: seq<Scheduled>, gas: Venue -> int)
    requires |parts| == |routed| == |s|
    requires forall i :: 0 <= i < |s| ==>
               s[i].amount == parts[i].amount && s[i].venue == routed[i].venue && routed[i].gas == gas(routed[i].venue)
    ensures Total(s) == Sum(parts) && Gas(s, gas) == SumGas(routed)
  {
    if s != [] {
      var n := |s| - 1;
      PairedTotals(parts[..n], routed[..n], s[..n], gas);
    }
  }

  lemma ScheduledPairs(parts: seq<SubTrade>, venues: seq<Venue>, window: Seconds, random: seq<nat>)
    requires parts != [] && Random(random, |parts|) && Schedule(parts, venues, window, random).Ok?
    ensures var s := Schedule(parts, venues, window, random).value;
            && |s| == |parts| == |venues| && Diffused(s, window)
            && forall i :: 0 <= i < |s| ==> s[i].index == parts[i].index && s[i].amount == parts[i].amount && s[i].venue == venues[i]
  {
    var s := Schedule(parts, venues, window, random).value;
    if window.x > 0.0 {
      forall i, j | 0 <= i <= j < |s|
        ensures (i < j ==> s[j].at - s[i].at >= MIN_SPACING_SECONDS) && 0 <= s[i].at && s[j].at as real <= window.x
      {
        SpacedInsideWindow(parts, venues, window, random, i, j);
      }
    }
  }

  lemma Composed(parts: seq<SubTrade>, made: seq<Assignment>, s: seq<Scheduled>, total: int, c: ExecutionConfig, k: Constraints)
    requires k.score.Finite? && Plans(parts, total, c.split)
    requires Greedy(RoutingOf(c, k), ByAmount(parts), made) && |made| == |parts|
    requires |ByIndex(made)| == |s| == |parts|
    requires forall i :: 0 <= i < |s| ==>
               s[i].index == parts[i].index && s[i].amount == parts[i].amount && s[i].venue == ByIndex(made)[i].venue
    ensures Executes(s, total, c, k)
  {
    var g, routed := RoutingOf(c, k), ByIndex(made);
    GreedyRoutes(g, parts, made);
    PairedTotals(parts, routed, s, k.gas);
    if !Regains(g) {
      forall i, j | 0 <= i < |s| && 0 <= j < |s| && s[i].amount > s[j].amount ensures Rank(s[i].venue) <= Rank(s[j].venue) {
        LargerIsNoLessPrivate(g, parts, made, i, j);
      }
    }
  }

  predicate ValidInput(total: int, k: Constraints, c: ExecutionConfig) {
    ValidExecution(c) && ValidConfig(c.split) && total > 0 && Accepted(RoutingOf(c, k))
  }

  /** The split of the total has a sub-trade no venue takes, or is too long for the window. */
  ghost predicate Unplaceable(total: int, k: Constraints, c: ExecutionConfig)
    requires ValidInput(total, k, c)
  {
    exists parts :: UnplaceableBy(total, k, c, parts)
  }

  ghost predicate UnplaceableBy(total: int, k: Constraints, c: ExecutionConfig, parts: seq<SubTrade>)
    requires ValidInput(total, k, c)
  {
    IsSplit(parts, total, c.split) && (Stuck(RoutingOf(c, k), ByAmount(parts)) || !WindowFits(c.window, |parts|))
  }

  /** Sub-trade by sub-trade, the amounts of the split. */
  ghost predicate Carries(s: seq<Scheduled>, parts: seq<SubTrade>) {
    |s| == |parts| && forall i :: 0 <= i < |s| ==> s[i].amount == parts[i].amount
  }

  lemma PlaceableBy(total: int, k: Constraints, c: ExecutionConfig, parts: seq<SubTrade>)
    requires ValidInput(total, k, c) && IsSplit(parts, total, c.split) && !UnplaceableBy(total, k, c, parts)
    ensures !Unplaceable(total, k, c)
  {
    forall other | IsSplit(other, total, c.split) ensures !UnplaceableBy(total, k, c, other) {
      SplitUnique(other, parts, total, c.split);
    }
  }

  function VenuesOf(routed: seq<Assignment>): seq<Venue> {
    seq(|routed|, i requires 0 <= i < |routed| => routed[i].venue)
  }

  lemma ServedIsPlaceable(total: int, k: Constraints, c: ExecutionConfig, parts: seq<SubTrade>, made: seq<Assignment>)
    requires ValidInput(total, k, c) && IsSplit(parts, total, c.split) && WindowFits(c.window, |parts|)
    requires Greedy(RoutingOf(c, k), ByAmount(parts), made) && |made| == |parts|
    ensures !Unplaceable(total, k, c)
  {
    SortSorts(parts, BiggestFirst);
    StuckExcludesServed(RoutingOf(c, k), ByAmount(parts), made);
    PlaceableBy(total, k, c, parts);
  }

  /** The split, routed and scheduled position by position, is what an accepted plan promises. */
  lemma ScheduledExecutes(total: int, k: Constraints, c: ExecutionConfig, parts: seq<SubTrade>, made: seq<Assignment>,
                          random: seq<nat>)
    requires k.score.Finite? && Plans(parts, total, c.split)
    requires Greedy(RoutingOf(c, k), ByAmount(parts), made) && |made| == |parts| == |ByIndex(made)|
    requires Random(random, |parts|) && Schedule(parts, VenuesOf(ByIndex(made)), c.window, random).Ok?
    ensures var s := Schedule(parts, VenuesOf(ByIndex(made)), c.window, random).value;
            Executes(s, total, c, k) && Diffused(s, c.window) && Carries(s, parts)
  {
    ScheduledPairs(parts, VenuesOf(ByIndex(made)), c.window, random);
    Composed(parts, made, Schedule(parts, VenuesOf(ByIndex(made)), c.window, random).value, total, c, k);
  }

  lemma Planned(total: int, k: Constraints, c: ExecutionConfig, parts: seq<SubTrade>, routed: seq<Assignment>,
                random: seq<nat>)
    requires ValidInput(total, k, c) && IsSplit(parts, total, c.split) && RoutesTo(RoutingOf(c, k), parts, routed)
    requires Random(random, |parts|) && Schedule(parts, VenuesOf(routed), c.window, random).Ok?
    ensures var s := Schedule(parts, VenuesOf(routed), c.window, random).value;
            Executes(s, total, c, k) && Diffused(s, c.window) && Carries(s, parts) && !Unplaceable(total, k, c)
  {
    var made :| Greedy(RoutingOf(c, k), ByAmount(parts), made) && |made| == |parts| && routed == ByIndex(made);
    SplitPlans(parts, total, c.split);
    RoutedLength(RoutingOf(c, k), parts, routed);
    ScheduledExecutes(total, k, c, parts, made, random);
    ServedIsPlaceable(total, k, c, parts, made);
  }

  method ValidateExecutionConfig(c: ExecutionConfig) returns (valid: bool)
    ensures valid == ValidExecution(c)
  {
    if c.maxGasBudget < 0 { return false; }
    if c.maxSlippageBps < 1 || c.maxSlippageBps > 10_000 { return false; }
    if c.window.Finite? && c.window.x < 0.0 { return false; }
    valid := c.preference != [];
  }

  method PlanExecution(total: int, k: Constraints, c: ExecutionConfig, draw: nat -> seq<nat>) returns (r: Result<seq<Scheduled>>)
    requires forall n :: Random(draw(n), n)
    ensures r.Err? <==>
            || total <= 0 || c.maxGasBudget < 0 || c.maxSlippageBps < 1 || c.maxSlippageBps > 10_000
            || c.split.splitThreshold < 10_000_000_000_000_000_000 || c.split.maxSubTrades < 2 || c.split.maxSubTrades > 100
            || c.split.minSubTradeSize <= 0 || (c.window.Finite? && c.window.x < 0.0)
            || k.score.NotFinite? || k.score.x < 0.0 || c.preference == [] || Unknown in c.preference
            || (ValidInput(total, k, c) && Unplaceable(total, k, c))
    ensures r.Ok? ==> Executes(r.value, total, c, k) && Diffused(r.value, c.window)
    ensures r.Ok? ==> exists parts :: IsSplit(parts, total, c.split) && Carries(r.value, parts)
  {
    var valid := ValidateExecutionConfig(c);
    if !valid { return Err; }
    var plan := PlanSplit(total, c.split);
    if plan.Err? { return Err; }
    var parts := plan.value;
    var assignment := AssignVenues(parts, RoutingOf(c, k));
    if assignment.Err? {
      assert ValidInput(total, k, c) ==> UnplaceableBy(total, k, c, parts);
      return Err;
    }
    SplitPlans(parts, total, c.split);
    RoutedLength(RoutingOf(c, k), parts, assignment.value);
    var random := draw(|parts|);
    r := Schedule(parts, VenuesOf(assignment.value), c.window, random);
    if r.Ok? {
      Planned(total, k, c, parts, assignment.value, random);
    } else {
      assert UnplaceableBy(total, k, c, parts);
    }
  }

  lemma RoutedLength(g: Routing, parts: seq<SubTrade>, routed: seq<Assignment>)
    requires g.score.Finite? && RoutesTo(g, parts, routed)
    ensures |routed| == |parts|
  {
    var made :| Greedy(g, ByAmount(parts), made) && |made| == |parts| && routed == ByIndex(made);
    SortSorts(made, Place);
  }
}
