/** XIP-2 venue assignment: each sub-trade gets the most private permitted venue the gas budget still allows. */
module VenueRouter {
  import opened SplitPlanner
  import opened StableSort
  import opened Wrappers

  datatype Venue = Shielded | Stealth | Public

  /** A venue name off a caller's list. */
  datatype Named = Known(venue: Venue) | Unknown

  datatype Score = NotFinite | Finite(x: real)

  datatype Assignment = Assignment(index: nat, venue: Venue, gas: int)

  const SHIELDED_MIN_SCORE := 50.0

  function MinScore(v: Venue): real {
    match v
    case Shielded => SHIELDED_MIN_SCORE
    case Stealth => 0.0
    case Public => 0.0
  }

  /** Lower is more private. */
  function Rank(v: Venue): nat {
    match v
    case Shielded => 0
    case Stealth => 1
    case Public => 2
  }

  /** Largest amount first. */
  function BiggestFirst(t: SubTrade): int {
    -t.amount
  }

  function ByAmount(s: seq<SubTrade>): seq<SubTrade> {
    Sort(s, BiggestFirst)
  }

  function Place(a: Assignment): int {
    a.index
  }

  function ByIndex(s: seq<Assignment>): seq<Assignment> {
    Sort(s, Place)
  }

  // The greedy pass.

  /** What does not change while one list of sub-trades is routed. */
  datatype Routing = Routing(preference: seq<Named>, score: Score, gas: Venue -> int, budget: int)

  predicate Accepted(g: Routing) {
    && g.score.Finite? && g.score.x >= 0.0
    && g.preference != [] && forall i :: 0 <= i < |g.preference| ==> g.preference[i].Known?
  }

  /** The caller's venues, most private first, whatever order they were given in. */
  function Ordered(g: Routing): seq<Venue> {
    (if Known(Shielded) in g.preference then [Shielded] else [])
    + (if Known(Stealth) in g.preference then [Stealth] else [])
    + (if Known(Public) in g.preference then [Public] else [])
  }

  /** The caller allows the venue, the trust score reaches it, and the budget (zero: none) still covers it. */
  predicate Fits(g: Routing, remaining: int, v: Venue)
    requires g.score.Finite?
  {
    && Known(v) in g.preference && g.score.x >= MinScore(v)
    && !(g.budget > 0 && g.gas(v) > remaining)
  }

  ghost predicate BestFit(g: Routing, remaining: int, v: Venue)
    requires g.score.Finite?
  {
    Fits(g, remaining, v) && forall w :: Fits(g, remaining, w) ==> Rank(v) <= Rank(w)
  }

  function After(g: Routing, remaining: int, v: Venue): int {
    if g.budget > 0 then remaining - g.gas(v) else remaining
  }

  /** The gas left once the first k assignments are made. */
  function Left(g: Routing, made: seq<Assignment>): int {
    if made == [] then g.budget else After(g, Left(g, made[..|made| - 1]), made[|made| - 1].venue)
  }

  ghost predicate Serves(g: Routing, before: seq<Assignment>, a: Assignment, t: SubTrade)
    requires g.score.Finite?
  {
    a.index == t.index && a.gas == g.gas(a.venue) && BestFit(g, Left(g, before), a.venue)
  }

  /** Assignments made in this order, each the best fit for what the ones before it left. */
  ghost predicate Greedy(g: Routing, sorted: seq<SubTrade>, made: seq<Assignment>)
    requires g.score.Finite?
  {
    |made| <= |sorted| && forall k :: 0 <= k < |made| ==> Serves(g, made[..k], made[k], sorted[k])
  }

  ghost predicate Stuck(g: Routing, sorted: seq<SubTrade>)
    requires g.score.Finite?
  {
    exists made :: Greedy(g, sorted, made) && |made| < |sorted| && forall v :: !Fits(g, Left(g, made), v)
  }

  /** Every sub-trade served by the pass, and the assignments put back in index order. */
  ghost predicate RoutesTo(g: Routing, subTrades: seq<SubTrade>, r: seq<Assignment>)
    requires g.score.Finite?
  {
    exists made :: Greedy(g, ByAmount(subTrades), made) && |made| == |subTrades| && r == ByIndex(made)
  }

  lemma RoutesBy(g: Routing, subTrades: seq<SubTrade>, made: seq<Assignment>)
    requires g.score.Finite? && Greedy(g, ByAmount(subTrades), made) && |made| == |subTrades|
    ensures RoutesTo(g, subTrades, ByIndex(made))
  {
  }

  lemma StuckAfter(g: Routing, sorted: seq<SubTrade>, made: seq<Assignment>)
    requires g.score.Finite? && Greedy(g, sorted, made) && |made| < |sorted| && forall v :: !Fits(g, Left(g, made), v)
    ensures Stuck(g, sorted)
  {
  }

  method FirstFit(g: Routing, ordered: seq<Venue>, remaining: int) returns (found: bool, venue: Venue)
    requires g.score.Finite? && ordered == Ordered(g)
    ensures found ==> BestFit(g, remaining, venue)
    ensures !found ==> forall v :: !Fits(g, remaining, v)
  {
    found, venue := false, Public;
    var k := 0;
    while k < |ordered|
      invariant k <= |ordered| && !found
      invariant forall j :: 0 <= j < k ==> !Fits(g, remaining, ordered[j])
    {
      var v := ordered[k];
      if g.score.x >= MinScore(v) && !(g.budget > 0 && g.gas(v) > remaining) {
        OrderedByPrivacy(g, k);
        return true, v;
      }
      k := k + 1;
    }
    forall v ensures !Fits(g, remaining, v) {
      if Known(v) in g.preference {
        OrderedHas(g, v);
      }
    }
  }

  lemma OrderedByPrivacy(g: Routing, k: nat)
    requires k < |Ordered(g)|
    ensures Known(Ordered(g)[k]) in g.preference
    ensures forall w :: Known(w) in g.preference && Rank(w) < Rank(Ordered(g)[k]) ==> exists j :: 0 <= j < k && Ordered(g)[j] == w
  {
    forall w | Known(w) in g.preference && Rank(w) < Rank(Ordered(g)[k]) ensures exists j :: 0 <= j < k && Ordered(g)[j] == w {
      OrderedHas(g, w);
      var j :| 0 <= j < |Ordered(g)| && Ordered(g)[j] == w;
    }
  }

  lemma OrderedHas(g: Routing, v: Venue)
    requires Known(v) in g.preference
    ensures v in Ordered(g)
  {
    match v
    case Shielded => assert Ordered(g)[0] == Shielded;
    case Stealth => assert Ordered(g)[if Known(Shielded) in g.preference then 1 else 0] == Stealth;
    case Public => assert Ordered(g)[|Ordered(g)| - 1] == Public;
  }

  lemma GreedyExtends(g: Routing, sorted: seq<SubTrade>, made: seq<Assignment>, v: Venue)
    requires g.score.Finite? && Greedy(g, sorted, made) && |made| < |sorted| && BestFit(g, Left(g, made), v)
    ensures var next := made + [Assignment(sorted[|made|].index, v, g.gas(v))];
            Greedy(g, sorted, next) && Left(g, next) == After(g, Left(g, made), v)
  {
    var next := made + [Assignment(sorted[|made|].index, v, g.gas(v))];
    assert next[..|made|] == made;
    forall k | 0 <= k < |next| ensures Serves(g, next[..k], next[k], sorted[k]) {
      if k < |made| {
        assert next[..k] == made[..k] && next[k] == made[k];
        assert Serves(g, made[..k], made[k], sorted[k]);
      }
    }
  }

  method AssignVenues(subTrades: seq<SubTrade>, g: Routing) returns (r: Result<seq<Assignment>>)
    ensures r.Err? <==> g.score.NotFinite? || g.score.x < 0.0 || g.preference == [] || Unknown in g.preference
                        || Stuck(g, ByAmount(subTrades))
    ensures r.Ok? ==> RoutesTo(g, subTrades, r.value)
  {
    if g.score.NotFinite? || g.score.x < 0.0 { return Err; }
    if g.preference == [] || Unknown in g.preference { return Err; }
    if subTrades == [] {
      StuckExcludesServed(g, [], []);
      RoutesBy(g, [], []);
      return Ok([]);
    }
    var sorted := ByAmount(subTrades);
    SortSorts(subTrades, BiggestFirst);
    var ordered := Ordered(g);
    var gasRemaining := g.budget;
    var made: seq<Assignment> := [];
    for k := 0 to |sorted|
      invariant |made| == k && gasRemaining == Left(g, made) && Greedy(g, sorted, made)
    {
      var found, venue := FirstFit(g, ordered, gasRemaining);
      if !found {
        StuckAfter(g, sorted, made);
        return Err;
      }
      GreedyExtends(g, sorted, made, venue);
      made := made + [Assignment(sorted[k].index, venue, g.gas(venue))];
      if g.budget > 0 {
        gasRemaining := gasRemaining - g.gas(venue);
      }
    }
    StuckExcludesServed(g, sorted, made);
    RoutesBy(g, subTrades, made);
    r := Ok(ByIndex(made));
  }

  lemma BestFitUnique(g: Routing, remaining: int, v: Venue, w: Venue)
    requires g.score.Finite? && BestFit(g, remaining, v) && BestFit(g, remaining, w)
    ensures v == w
  {
    assert Rank(v) <= Rank(w) && Rank(w) <= Rank(v);
  }

  lemma SameNext(g: Routing, sorted: seq<SubTrade>, a: seq<Assignment>, b: seq<Assignment>, k: nat)
    requires g.score.Finite? && Greedy(g, sorted, a) && Greedy(g, sorted, b) && k < |a| && k < |b| && a[..k] == b[..k]
    ensures a[k] == b[k]
  {
    var remaining := Left(g, a[..k]);
    assert Serves(g, a[..k], a[k], sorted[k]) && Serves(g, b[..k], b[k], sorted[k]);
    BestFitUnique(g, remaining, a[k].venue, b[k].venue);
  }

  /** The pass is deterministic: two of its outcomes agree as far as the shorter goes. */
  lemma GreedyUnique(g: Routing, sorted: seq<SubTrade>, a: seq<Assignment>, b: seq<Assignment>)
    requires g.score.Finite? && Greedy(g, sorted, a) && Greedy(g, sorted, b) && |a| <= |b|
    ensures a == b[..|a|]
  {
    var k := 0;
    while k < |a|
      invariant k <= |a| && a[..k] == b[..k]
    {
      SameNext(g, sorted, a, b, k);
      Snoc(a, k);
      Snoc(b, k);
      k := k + 1;
    }
    assert a[..|a|] == a;
  }

  lemma Snoc<T>(s: seq<T>, k: nat)
    requires k < |s|
    ensures s[..k + 1] == s[..k] + [s[k]]
  {
  }

  lemma StuckExcludesServed(g: Routing, sorted: seq<SubTrade>, made: seq<Assignment>)
    requires g.score.Finite? && Greedy(g, sorted, made) && |made| == |sorted|
    ensures !Stuck(g, sorted)
  {
    forall short | Greedy(g, sorted, short) && |short| < |sorted| ensures exists v :: Fits(g, Left(g, short), v) {
      GreedyUnique(g, sorted, short, made);
      assert made[..|short|] == short;
      assert Serves(g, made[..|short|], made[|short|], sorted[|short|]);
      assert Fits(g, Left(g, short), made[|short|].venue);
    }
  }

  // What an assignment promises.

  function SumGas(s: seq<Assignment>): int {
    if s == [] then 0 else SumGas(s[..|s| - 1]) + s[|s| - 1].gas
  }

  lemma {:induction false} SpentWithin(g: Routing, sorted: seq<SubTrade>, made: seq<Assignment>)
    requires g.score.Finite? && Greedy(g, sorted, made) && g.budget > 0
    ensures Left(g, made) == g.budget - SumGas(made) && Left(g, made) >= 0
  {
    if made != [] {
      var n := |made| - 1;
      assert forall k :: 0 <= k <= n ==> made[..n][..k] == made[..k];
      SpentWithin(g, sorted, made[..n]);
    }
  }

  lemma {:induction false} InsertGas(s: seq<Assignment>, x: Assignment)
    ensures SumGas(Insert(s, x, Place)) == SumGas(s) + x.gas
  {
    if s != [] && Place(s[|s| - 1]) > Place(x) {
      var t := Insert(s[..|s| - 1], x, Place);
      InsertGas(s[..|s| - 1], x);
      assert (t + [s[|s| - 1]])[..|t|] == t;
    } else {
      assert (s + [x])[..|s|] == s;
    }
  }

  lemma {:induction false} SortGas(s: seq<Assignment>)
    ensures SumGas(ByIndex(s)) == SumGas(s)
  {
    if s != [] {
      SortGas(s[..|s| - 1]);
      InsertGas(ByIndex(s[..|s| - 1]), s[|s| - 1]);
    }
  }

  predicate Permitted(g: Routing, v: Venue)
    requires g.score.Finite?
  {
    Known(v) in g.preference && g.score.x >= MinScore(v)
  }

  /** What a score opens: every venue the caller lists, but the shielded one only from 50 on. */
  lemma ScoreOpens(g: Routing, v: Venue)
    requires Accepted(g)
    ensures Permitted(g, v) <==> Known(v) in g.preference && (v.Shielded? ==> g.score.x >= 50.0)
  {
  }

  /** What fits next: a venue the caller and the score permit, if there is no budget or all gas so far and its own stay within it. */
  lemma {:induction false} FitsExactly(g: Routing, made: seq<Assignment>, v: Venue)
    requires g.score.Finite? && g.score.x >= 0.0 && forall k :: 0 <= k < |made| ==> made[k].gas == g.gas(made[k].venue)
    ensures Fits(g, Left(g, made), v) <==>
            && Known(v) in g.preference && (v.Shielded? ==> g.score.x >= 50.0)
            && (g.budget <= 0 || SumGas(made) + g.gas(v) <= g.budget)
  {
    LeftIsUnspent(g, made);
  }

  lemma {:induction false} LeftIsUnspent(g: Routing, made: seq<Assignment>)
    requires forall k :: 0 <= k < |made| ==> made[k].gas == g.gas(made[k].venue)
    ensures g.budget > 0 ==> Left(g, made) == g.budget - SumGas(made)
  {
    if made != [] {
      LeftIsUnspent(g, made[..|made| - 1]);
    }
  }

  /** The venue gives gas back, and the permitted venues more private than it, of which there are some, all take gas. */
  ghost predicate RegainsAt(g: Routing, v: Venue)
    requires g.score.Finite?
  {
    && Permitted(g, v) && g.gas(v) < 0
    && (exists w :: Permitted(g, w) && Rank(w) < Rank(v))
    && (forall w :: Permitted(g, w) && Rank(w) < Rank(v) ==> g.gas(w) > 0)
  }

  /** Under a budget, a less private venue can free gas for a more private one. */
  ghost predicate Regains(g: Routing)
    requires g.score.Finite?
  {
    g.budget > 0 && exists v :: RegainsAt(g, v)
  }

  /** Estimates that are never negative give no gas back. */
  lemma CostlessNeverRegains(g: Routing)
    requires g.score.Finite? && g.gas(Shielded) >= 0 && g.gas(Stealth) >= 0 && g.gas(Public) >= 0
    ensures !Regains(g)
  {
    forall v ensures g.gas(v) >= 0 {
      assert v == Shielded || v == Stealth || v == Public;
    }
  }

  /** Gas left can grow only where a venue gave some back. */
  lemma {:induction false} WhereLeftGrows(g: Routing, made: seq<Assignment>, i: nat, j: nat) returns (k: nat)
    requires i <= j <= |made| && g.budget > 0 && Left(g, made[..i]) < Left(g, made[..j])
    ensures i <= k < j && g.gas(made[k].venue) < 0
  {
    assert made[..j][..j - 1] == made[..j - 1];
    if g.gas(made[j - 1].venue) < 0 {
      k := j - 1;
    } else {
      k := WhereLeftGrows(g, made, i, j - 1);
    }
  }

  lemma PrefixGreedy(g: Routing, sorted: seq<SubTrade>, made: seq<Assignment>, k: nat)
    requires g.score.Finite? && Greedy(g, sorted, made) && k <= |made|
    ensures Greedy(g, sorted, made[..k])
  {
    assert forall i :: 0 <= i < k ==> made[..k][..i] == made[..i];
  }

  /** A venue that gave gas back when it was used, and that none can undercut, is the most private permitted one. */
  lemma RegainedIsMostPrivate(g: Routing, sorted: seq<SubTrade>, made: seq<Assignment>, k: nat, b: Venue)
    requires g.score.Finite? && g.budget > 0 && !Regains(g) && Greedy(g, sorted, made) && k < |made|
    requires g.gas(made[k].venue) < 0 && Permitted(g, b)
    ensures Permitted(g, made[k].venue) && Rank(made[k].venue) <= Rank(b)
  {
    var v, left := made[k].venue, Left(g, made[..k]);
    PrefixGreedy(g, sorted, made, k);
    SpentWithin(g, sorted, made[..k]);
    assert Serves(g, made[..k], made[k], sorted[k]);
    forall w | Permitted(g, w) && g.gas(w) <= 0 ensures Rank(v) <= Rank(w) {
      assert Fits(g, left, w);
    }
    assert !RegainsAt(g, v);
  }

  /** Served earlier, served no less privately. */
  lemma EarlierIsNoLessPrivate(g: Routing, sorted: seq<SubTrade>, made: seq<Assignment>, i: nat, j: nat)
    requires g.score.Finite? && !Regains(g) && Greedy(g, sorted, made) && i <= j < |made|
    ensures Rank(made[i].venue) <= Rank(made[j].venue)
  {
    var a, b := made[i].venue, made[j].venue;
    var left := Left(g, made[..i]);
    assert Serves(g, made[..i], made[i], sorted[i]) && Serves(g, made[..j], made[j], sorted[j]);
    if g.budget > 0 && left < Left(g, made[..j]) {
      var k := WhereLeftGrows(g, made, i, j);
      RegainedIsMostPrivate(g, sorted, made, k, b);
      PrefixGreedy(g, sorted, made, i);
      SpentWithin(g, sorted, made[..i]);
      assert Fits(g, left, made[k].venue);
    } else {
      assert Fits(g, left, b);
    }
  }

  ghost predicate Positioned(s: seq<Assignment>) {
    forall k :: 0 <= k < |s| ==> s[k].index == k
  }

  /** Distinct indexes below the length, sorted, are the positions themselves. */
  lemma SortedArePositions(s: seq<Assignment>)
    requires Sorted(s, Place)
    requires forall i, j :: 0 <= i < j < |s| ==> s[i].index != s[j].index
    requires forall i :: 0 <= i < |s| ==> s[i].index < |s|
    ensures Positioned(s)
  {
    for k := 0 to |s|
      invariant forall i :: 0 <= i < k ==> s[i].index >= i
    {
      assert k > 0 ==> Place(s[k - 1]) <= Place(s[k]);
    }
    var k := |s|;
    while k > 0
      invariant 0 <= k <= |s| && forall i :: k <= i < |s| ==> s[i].index <= i
    {
      k := k - 1;
      assert k + 1 < |s| ==> Place(s[k]) <= Place(s[k + 1]);
    }
  }

  ghost predicate Numbered(parts: seq<SubTrade>) {
    forall k :: 0 <= k < |parts| ==> parts[k].index == k
  }

  function Number(t: SubTrade): int {
    t.index
  }

  /** A made assignment is for the sub-trade of its own index. */
  lemma MadeFor(g: Routing, parts: seq<SubTrade>, made: seq<Assignment>, p: nat)
    requires g.score.Finite? && Numbered(parts) && Greedy(g, ByAmount(parts), made) && |made| == |parts| && p < |made|
    ensures |ByAmount(parts)| == |parts|
    ensures made[p].index < |parts| && ByAmount(parts)[p] == parts[made[p].index]
  {
    SortSorts(parts, BiggestFirst);
    InSort(parts, BiggestFirst, ByAmount(parts)[p]);
    assert Serves(g, made[..p], made[p], ByAmount(parts)[p]);
  }

  lemma MadeApart(g: Routing, parts: seq<SubTrade>, made: seq<Assignment>)
    requires g.score.Finite? && Numbered(parts) && Greedy(g, ByAmount(parts), made) && |made| == |parts|
    ensures Apart(made, Place) && Positioned(ByIndex(made)) && |ByIndex(made)| == |parts|
  {
    SortApart(parts, BiggestFirst, Number);
    SortSorts(parts, BiggestFirst);
    forall i, j | 0 <= i < j < |made| ensures Place(made[i]) != Place(made[j]) {
      assert Serves(g, made[..i], made[i], ByAmount(parts)[i]) && Serves(g, made[..j], made[j], ByAmount(parts)[j]);
      assert Number(ByAmount(parts)[i]) != Number(ByAmount(parts)[j]);
    }
    SortApart(made, Place, Place);
    SortSorts(made, Place);
    var r := ByIndex(made);
    forall k | 0 <= k < |r| ensures r[k].index < |r| {
      InSort(made, Place, r[k]);
      var p :| 0 <= p < |made| && made[p] == r[k];
      MadeFor(g, parts, made, p);
    }
    assert forall i, j :: 0 <= i < j < |r| ==> Place(r[i]) != Place(r[j]);
    SortedArePositions(r);
  }

  /** Where the assignment of index k was made. */
  lemma MadeAt(g: Routing, parts: seq<SubTrade>, made: seq<Assignment>, k: nat) returns (p: nat)
    requires g.score.Finite? && Numbered(parts) && Greedy(g, ByAmount(parts), made) && |made| == |parts| && k < |parts|
    ensures |ByIndex(made)| == |parts| == |ByAmount(parts)| && p < |made| && made[p] == ByIndex(made)[k]
    ensures ByAmount(parts)[p] == parts[k]
  {
    MadeApart(g, parts, made);
    InSort(made, Place, ByIndex(made)[k]);
    p :| 0 <= p < |made| && made[p] == ByIndex(made)[k];
    MadeFor(g, parts, made, p);
  }

  /** One permitted venue for each sub-trade, in its place, within a positive budget. */
  ghost predicate Routed(g: Routing, parts: seq<SubTrade>, r: seq<Assignment>)
    requires g.score.Finite?
  {
    && |r| == |parts| && Positioned(r)
    && (forall k :: 0 <= k < |r| ==>
          Known(r[k].venue) in g.preference && g.score.x >= MinScore(r[k].venue) && r[k].gas == g.gas(r[k].venue))
    && (g.budget > 0 ==> SumGas(r) <= g.budget)
  }

  lemma GreedyRoutes(g: Routing, parts: seq<SubTrade>, made: seq<Assignment>)
    requires g.score.Finite? && Numbered(parts) && Greedy(g, ByAmount(parts), made) && |made| == |parts|
    ensures Routed(g, parts, ByIndex(made))
  {
    var r := ByIndex(made);
    MadeApart(g, parts, made);
    SortGas(made);
    if g.budget > 0 {
      SpentWithin(g, ByAmount(parts), made);
    }
    forall k | 0 <= k < |r|
      ensures Known(r[k].venue) in g.preference && g.score.x >= MinScore(r[k].venue) && r[k].gas == g.gas(r[k].venue)
    {
      var p := MadeAt(g, parts, made, k);
      assert Serves(g, made[..p], made[p], ByAmount(parts)[p]);
    }
  }

  /** Through both sorts: a strictly larger sub-trade never gets a less private venue than a smaller one. */
  lemma LargerIsNoLessPrivate(g: Routing, parts: seq<SubTrade>, made: seq<Assignment>, i: nat, j: nat)
    requires g.score.Finite? && !Regains(g)
    requires Numbered(parts) && Greedy(g, ByAmount(parts), made) && |made| == |parts|
    requires i < |parts| && j < |parts| && parts[i].amount > parts[j].amount
    ensures |ByIndex(made)| == |parts| && Rank(ByIndex(made)[i].venue) <= Rank(ByIndex(made)[j].venue)
  {
    var p := MadeAt(g, parts, made, i);
    var q := MadeAt(g, parts, made, j);
    SortSorts(parts, BiggestFirst);
    assert q < p ==> BiggestFirst(ByAmount(parts)[q]) <= BiggestFirst(ByAmount(parts)[p]);
    EarlierIsNoLessPrivate(g, ByAmount(parts), made, p, q);
  }

  // When the order breaks.

  /** A larger sub-trade of this list gets a less private venue than a smaller one. */
  ghost predicate Inverts(g: Routing, parts: seq<SubTrade>, made: seq<Assignment>, i: nat, j: nat)
    requires g.score.Finite?
  {
    && Numbered(parts) && Greedy(g, ByAmount(parts), made) && |made| == |parts| == |ByIndex(made)|
    && i < |parts| && j < |parts| && parts[i].amount > parts[j].amount
    && Rank(ByIndex(made)[i].venue) > Rank(ByIndex(made)[j].venue)
  }

  /** n sub-trades, each one unit smaller than the last. */
  function Falling(n: nat): seq<SubTrade> {
    seq(n, k requires 0 <= k < n => SubTrade(k, n - k))
  }

  ghost function Best(g: Routing, remaining: int): Venue
    requires g.score.Finite?
  {
    if Fits(g, remaining, Shielded) then Shielded else if Fits(g, remaining, Stealth) then Stealth else Public
  }

  /** The gas left after n sub-trades, when some venue always fits. */
  ghost function Remaining(g: Routing, n: nat): int
    requires g.score.Finite?
  {
    if n == 0 then g.budget else Remaining(g, n - 1) - g.gas(Best(g, Remaining(g, n - 1)))
  }

  ghost function Pass(g: Routing, n: nat): seq<Assignment>
    requires g.score.Finite?
  {
    seq(n, k requires 0 <= k < n =>
      var v := Best(g, Remaining(g, k));
      Assignment(k, v, g.gas(v)))
  }

  lemma BestFits(g: Routing, remaining: int, v: Venue)
    requires g.score.Finite? && Permitted(g, v) && g.gas(v) < 0 <= remaining
    ensures BestFit(g, remaining, Best(g, remaining)) && Rank(Best(g, remaining)) <= Rank(v)
  {
    assert Fits(g, remaining, v);
  }

  lemma {:induction false} RemainingNonNegative(g: Routing, n: nat, v: Venue)
    requires g.score.Finite? && g.budget > 0 && Permitted(g, v) && g.gas(v) < 0
    ensures Remaining(g, n) >= 0
  {
    if n > 0 {
      RemainingNonNegative(g, n - 1, v);
      BestFits(g, Remaining(g, n - 1), v);
    }
  }

  lemma {:induction false} PassGreedy(g: Routing, n: nat, v: Venue, sorted: seq<SubTrade>)
    requires g.score.Finite? && g.budget > 0 && Permitted(g, v) && g.gas(v) < 0
    requires n <= |sorted| && forall k :: 0 <= k < |sorted| ==> sorted[k].index == k
    ensures Greedy(g, sorted, Pass(g, n)) && Left(g, Pass(g, n)) == Remaining(g, n)
  {
    if n > 0 {
      var before, v' := Pass(g, n - 1), Best(g, Remaining(g, n - 1));
      PassGreedy(g, n - 1, v, sorted);
      RemainingNonNegative(g, n - 1, v);
      BestFits(g, Remaining(g, n - 1), v);
      GreedyExtends(g, sorted, before, v');
      assert Pass(g, n) == before + [Assignment(n - 1, v', g.gas(v'))];
    }
  }

  /** The first sub-trade that falls to v: those before it each took some of the budget. */
  lemma FallsTo(g: Routing, v: Venue) returns (i: nat)
    requires g.score.Finite? && g.budget > 0 && RegainsAt(g, v)
    ensures Best(g, Remaining(g, i)) == v
  {
    i := 0;
    while Best(g, Remaining(g, i)) != v
      invariant 0 <= Remaining(g, i) <= g.budget - i
      decreases g.budget - i
    {
      TakesGas(g, v, i);
      RemainingNonNegative(g, i + 1, v);
      i := i + 1;
    }
  }

  lemma TakesGas(g: Routing, v: Venue, i: nat)
    requires g.score.Finite? && g.budget > 0 && RegainsAt(g, v) && Best(g, Remaining(g, i)) != v
    ensures Remaining(g, i + 1) < Remaining(g, i) && Rank(Best(g, Remaining(g, i))) < Rank(v)
  {
    RemainingNonNegative(g, i, v);
    BestFits(g, Remaining(g, i), v);
    assert Permitted(g, Best(g, Remaining(g, i))) && Rank(Best(g, Remaining(g, i))) != Rank(v);
  }

  /** And the first one after it that is served more privately again. */
  lemma ClimbsBack(g: Routing, v: Venue, i: nat) returns (j: nat)
    requires g.score.Finite? && g.budget > 0 && RegainsAt(g, v) && Best(g, Remaining(g, i)) == v
    ensures i < j && Rank(Best(g, Remaining(g, j))) < Rank(v)
  {
    var w :| Permitted(g, w) && Rank(w) < Rank(v);
    j := i;
    RemainingNonNegative(g, i, v);
    while Best(g, Remaining(g, j)) == v
      invariant i <= j && Remaining(g, j) >= j - i
      invariant j == i ==> Best(g, Remaining(g, j)) == v
      decreases g.gas(w) - (j - i)
    {
      assert !Fits(g, Remaining(g, j), w);
      j := j + 1;
    }
    TakesGas(g, v, j);
  }

  lemma FallingSorted(n: nat)
    ensures Numbered(Falling(n)) && ByAmount(Falling(n)) == Falling(n)
  {
    SortOfSorted(Falling(n), BiggestFirst);
  }

  lemma PassInPlace(g: Routing, n: nat)
    requires g.score.Finite?
    ensures ByIndex(Pass(g, n)) == Pass(g, n)
  {
    SortOfSorted(Pass(g, n), Place);
  }

  /** Where a venue regains gas, enough sub-trades invert the order. */
  lemma RegainingInverts(g: Routing, v: Venue) returns (i: nat, j: nat)
    requires g.score.Finite? && g.budget > 0 && RegainsAt(g, v)
    ensures Inverts(g, Falling(j + 1), Pass(g, j + 1), i, j)
  {
    i := FallsTo(g, v);
    j := ClimbsBack(g, v, i);
    PassInverts(g, v, j + 1, i, j);
  }

  lemma PassInverts(g: Routing, v: Venue, n: nat, i: nat, j: nat)
    requires g.score.Finite? && g.budget > 0 && Permitted(g, v) && g.gas(v) < 0 && i < j < n
    requires Rank(Best(g, Remaining(g, i))) > Rank(Best(g, Remaining(g, j)))
    ensures Inverts(g, Falling(n), Pass(g, n), i, j)
  {
    FallingSorted(n);
    PassInPlace(g, n);
    PassGreedy(g, n, v, Falling(n));
    InvertsInPlace(g, Falling(n), Pass(g, n), i, j);
  }

  lemma InvertsInPlace(g: Routing, parts: seq<SubTrade>, made: seq<Assignment>, i: nat, j: nat)
    requires g.score.Finite? && Numbered(parts) && ByAmount(parts) == parts && ByIndex(made) == made
    requires Greedy(g, parts, made) && i < |parts| == |made| && j < |parts|
    requires parts[i].amount > parts[j].amount && Rank(made[i].venue) > Rank(made[j].venue)
    ensures Inverts(g, parts, made, i, j)
  {
  }

  /** For a caller's venues, score, estimates and budget, the privacy order can break exactly when gas can be regained. */
  lemma PrivacyBreaksExactly(g: Routing)
    requires g.score.Finite?
    ensures (exists parts, made, i, j :: Inverts(g, parts, made, i, j)) <==> Regains(g)
  {
    if Regains(g) {
      var v :| RegainsAt(g, v);
      var i, j := RegainingInverts(g, v);
    } else {
      forall parts, made, i, j | Inverts(g, parts, made, i, j) ensures false {
        LargerIsNoLessPrivate(g, parts, made, i, j);
      }
    }
  }
}
