/** The layered fee: a tier from a gated trust score, four separately floored layers, and the checker a taker runs. */
module FeePolicy {
  import opened Arithmetic
  import opened Numerals
  import opened Wrappers

  datatype Tier = Standard | Trusted | Verified | Premium | Institutional

  datatype AssetClass = Stable | Volatile

  datatype Attestation = Compliance | NonMembership

  const BPS_DENOMINATOR := 10_000
  const IMPACT_CAP_BPS := 150

  const TIER_BOUNDARIES: seq<(real, Tier)> :=
    [(100.0, Institutional), (75.0, Premium), (50.0, Verified), (25.0, Trusted), (0.0, Standard)]

  const TIER_GATE_ORDER: seq<Tier> := [Institutional, Premium, Verified, Trusted, Standard]

  function Rank(t: Tier): nat {
    match t
    case Standard => 0
    case Trusted => 1
    case Verified => 2
    case Premium => 3
    case Institutional => 4
  }

  function SolverBps(a: AssetClass): nat {
    if a.Stable? then 8 else 18
  }

  function VenueBps(t: Tier, a: AssetClass): nat {
    match t
    case Standard => if a.Stable? then 6 else 10
    case Trusted => if a.Stable? then 5 else 8
    case Verified => if a.Stable? then 3 else 5
    case Premium => if a.Stable? then 2 else 3
    case Institutional => if a.Stable? then 1 else 2
  }

  function RoutingBps(t: Tier, a: AssetClass): nat {
    match t
    case Standard => if a.Stable? then 8 else 12
    case Trusted => if a.Stable? then 6 else 9
    case Verified => if a.Stable? then 4 else 6
    case Premium => if a.Stable? then 2 else 4
    case Institutional => if a.Stable? then 1 else 2
  }

  function Required(t: Tier): set<Attestation> {
    match t
    case Standard => {}
    case Trusted => {}
    case Verified => {Compliance}
    case Premium => {Compliance, NonMembership}
    case Institutional => {Compliance, NonMembership}
  }

  // Tiers.

  predicate IsInteger(x: real) {
    x.Floor as real == x
  }

  /** The highest tier whose boundary an integer score meets; any other score is standard. */
  function TierOf(score: real): Tier {
    if !IsInteger(score) || score < 0.0 then Standard
    else if score >= 100.0 then Institutional
    else if score >= 75.0 then Premium
    else if score >= 50.0 then Verified
    else if score >= 25.0 then Trusted
    else Standard
  }

  /** The four boundaries, for a whole score; a fraction opens none. */
  lemma Boundaries(score: real)
    ensures Rank(TierOf(score)) >= 1 <==> IsInteger(score) && score >= 25.0
    ensures Rank(TierOf(score)) >= 2 <==> IsInteger(score) && score >= 50.0
    ensures Rank(TierOf(score)) >= 3 <==> IsInteger(score) && score >= 75.0
    ensures Rank(TierOf(score)) >= 4 <==> IsInteger(score) && score >= 100.0
  {
  }

  method ScoreToTier(score: real) returns (tier: Tier)
    ensures tier == TierOf(score)
  {
    if !IsInteger(score) || score < 0.0 { return Standard; }
    assert TIER_BOUNDARIES[4] == (0.0, Standard);
    for k := 0 to |TIER_BOUNDARIES|
      invariant forall j :: 0 <= j < k ==> score < TIER_BOUNDARIES[j].0
    {
      if score >= TIER_BOUNDARIES[k].0 {
        assert k > 0 ==> score < TIER_BOUNDARIES[k - 1].0;
        assert k == 0 || k == 1 || k == 2 || k == 3 || k == 4;
        return TIER_BOUNDARIES[k].1;
      }
    }
    tier := Standard;
  }

  /** No better tier at or below the raw one has its proofs. */
  predicate IsGated(tier: Tier, raw: Tier, provided: set<Attestation>) {
    && Rank(tier) <= Rank(raw) && Required(tier) <= provided
    && forall t: Tier :: Required(t) <= provided && Rank(t) <= Rank(raw) ==> Rank(t) <= Rank(tier)
  }

  method GateTier(raw: Tier, provided: set<Attestation>) returns (tier: Tier)
    ensures IsGated(tier, raw, provided)
  {
    if Required(raw) <= provided { return raw; }
    assert TIER_GATE_ORDER[4] == Standard;
    for k := 0 to |TIER_GATE_ORDER|
      invariant forall j :: 0 <= j < k ==> !(Required(TIER_GATE_ORDER[j]) <= provided)
    {
      if Required(TIER_GATE_ORDER[k]) <= provided {
        GateOrder(k, raw, provided);
        return TIER_GATE_ORDER[k];
      }
    }
    tier := Standard;
  }

  lemma GateOrder(k: nat, raw: Tier, provided: set<Attestation>)
    requires k < |TIER_GATE_ORDER| && Required(TIER_GATE_ORDER[k]) <= provided && !(Required(raw) <= provided)
    requires forall j :: 0 <= j < k ==> !(Required(TIER_GATE_ORDER[j]) <= provided)
    ensures IsGated(TIER_GATE_ORDER[k], raw, provided)
  {
    InGateOrder(TIER_GATE_ORDER[k]);
    RequiredGrows(raw, TIER_GATE_ORDER[k]);
    forall t: Tier | Required(t) <= provided ensures Rank(t) <= Rank(TIER_GATE_ORDER[k]) {
      InGateOrder(t);
    }
    assert Rank(TIER_GATE_ORDER[k]) == 4 - k;
  }

  lemma InGateOrder(t: Tier)
    ensures Rank(t) <= 4 && TIER_GATE_ORDER[4 - Rank(t)] == t
  {
  }

  /** A better tier asks for at least the proofs of a lesser one. */
  lemma RequiredGrows(t: Tier, u: Tier)
    ensures Rank(t) <= Rank(u) ==> Required(t) <= Required(u)
  {
  }

  /** The rank the proofs open: trusted without a compliance proof, verified with one, all with a non-membership proof besides. */
  function ProofRank(provided: set<Attestation>): nat {
    if Compliance !in provided then 1 else if NonMembership !in provided then 2 else 4
  }

  /** A gated tier is the raw one, or the one the proofs open if that is lower. */
  lemma GatedIsLower(tier: Tier, raw: Tier, provided: set<Attestation>)
    requires IsGated(tier, raw, provided)
    ensures Rank(tier) == if Rank(raw) <= ProofRank(provided) then Rank(raw) else ProofRank(provided)
  {
    Opened(tier, provided);
    Opened(raw, provided);
    var opens := if Compliance !in provided then Trusted else if NonMembership !in provided then Verified else Institutional;
    Opened(opens, provided);
  }

  lemma Opened(t: Tier, provided: set<Attestation>)
    ensures Required(t) <= provided <==> Rank(t) <= ProofRank(provided)
  {
  }

  /** Raising an integer score never lowers the gated tier, whatever proofs are presented. */
  lemma GateMonotone(score: int, score': int, provided: set<Attestation>, tier: Tier, tier': Tier)
    requires score <= score'
    requires IsGated(tier, TierOf(score as real), provided) && IsGated(tier', TierOf(score' as real), provided)
    ensures Rank(tier) <= Rank(tier')
  {
    assert IsInteger(score as real) && IsInteger(score' as real);
  }

  // Layers.

  /** floor(base * bps / 10000). */
  function LayerAmount(base: int, bps: int): (fee: nat)
    ensures base >= 0 && bps >= 0 ==> fee == base * bps / BPS_DENOMINATOR
  {
    if base <= 0 || bps <= 0 then
      ZeroProduct(base, bps);
      0
    else
      TimesNonNegative(base, bps);
      base * bps / BPS_DENOMINATOR
  }

  lemma ZeroProduct(a: int, b: int)
    ensures a == 0 || b == 0 ==> a * b == 0
  {
  }

  datatype Input = Text(s: string) | Big(n: int)

  function ParseBaseAmount(input: Input): Result<nat> {
    match input
    case Big(n) => if n < 0 then Err else Ok(n)
    case Text(s) => if IsNumeral(s, 10) then Ok(Parse(s, 10)) else Err
  }

  datatype Breakdown = Breakdown(
    solverBps: nat, impactBps: nat, venueBps: nat, routingBps: nat, totalBps: nat,
    solverFee: string, impactFee: string, venueFee: string, routingFee: string, totalFee: string)

  function Max(a: int, b: int): int {
    if a >= b then a else b
  }

  function Computed(base: nat, tier: Tier, asset: AssetClass, acpOrigin: bool, impactBps: nat): Breakdown {
    var solver, venue, routing := SolverBps(asset), VenueBps(tier, asset), if acpOrigin then 0 else RoutingBps(tier, asset);
    var s, i, v, r := LayerAmount(base, solver), LayerAmount(base, impactBps), LayerAmount(base, venue), LayerAmount(base, routing);
    Breakdown(solver, impactBps, venue, routing, Max(solver + venue + routing + impactBps, solver),
              Print(s, 10), Print(i, 10), Print(v, 10), Print(r, 10), Print(s + i + v + r, 10))
  }

  datatype Params = Params(input: Input, asset: AssetClass, explicitTier: Result<Tier>, score: real,
                           attestations: set<Attestation>, acpOrigin: bool, impactBps: nat)

  predicate TierFor(p: Params, tier: Tier) {
    if p.explicitTier.Ok? then tier == p.explicitTier.value else IsGated(tier, TierOf(p.score), p.attestations)
  }

  method ComputeFeeBreakdown(p: Params) returns (r: Result<Breakdown>)
    requires p.impactBps <= IMPACT_CAP_BPS
    ensures r.Ok? <==> ParseBaseAmount(p.input).Ok?
    ensures r.Ok? ==> exists tier :: TierFor(p, tier)
                                     && r.value == Computed(ParseBaseAmount(p.input).value, tier, p.asset, p.acpOrigin, p.impactBps)
    ensures r.Ok? ==> Shaped(r.value) && Reconciles(r.value, ParseBaseAmount(p.input))
  {
    var tier;
    if p.explicitTier.Ok? {
      tier := p.explicitTier.value;
    } else {
      var raw := ScoreToTier(p.score);
      tier := GateTier(raw, p.attestations);
    }
    var base := ParseBaseAmount(p.input);
    if base.Err? { return Err; }
    assert TierFor(p, tier);
    ComputedReconciles(base.value, tier, p.asset, p.acpOrigin, p.impactBps);
    r := Ok(Computed(base.value, tier, p.asset, p.acpOrigin, p.impactBps));
  }

  // The checker.

  /** The wire shape: every amount is a decimal. */
  predicate Shaped(b: Breakdown) {
    && IsNumeral(b.solverFee, 10) && IsNumeral(b.impactFee, 10) && IsNumeral(b.venueFee, 10)
    && IsNumeral(b.routingFee, 10) && IsNumeral(b.totalFee, 10)
  }

  function LayerSum(b: Breakdown): nat
    requires Shaped(b)
  {
    Parse(b.solverFee, 10) + Parse(b.impactFee, 10) + Parse(b.venueFee, 10) + Parse(b.routingFee, 10)
  }

  /** Layers sum to the totals, and each is the floor of its share when the amount is known. */
  predicate Reconciles(b: Breakdown, base: Result<nat>)
    requires Shaped(b)
  {
    && b.totalBps == b.solverBps + b.impactBps + b.venueBps + b.routingBps
    && Parse(b.totalFee, 10) == LayerSum(b)
    && (base.Ok? ==>
          && Parse(b.solverFee, 10) == LayerAmount(base.value, b.solverBps)
          && Parse(b.impactFee, 10) == LayerAmount(base.value, b.impactBps)
          && Parse(b.venueFee, 10) == LayerAmount(base.value, b.venueBps)
          && Parse(b.routingFee, 10) == LayerAmount(base.value, b.routingBps))
  }

  method AssertFeeBreakdownInvariants(b: Breakdown, known: bool, input: Input) returns (ok: bool)
    requires Shaped(b)
    ensures !known ==> ok == Reconciles(b, Err)
    ensures known ==> ok == (ParseBaseAmount(input).Ok? && Reconciles(b, ParseBaseAmount(input)))
  {
    var bpsSum := b.solverBps + b.impactBps + b.venueBps + b.routingBps;
    if b.totalBps != Max(bpsSum, b.solverBps) { return false; }
    if b.totalBps < b.solverBps { return false; }
    var layers := [Parse(b.solverFee, 10), Parse(b.impactFee, 10), Parse(b.venueFee, 10), Parse(b.routingFee, 10)];
    if layers[0] + layers[1] + layers[2] + layers[3] != Parse(b.totalFee, 10) { return false; }
    if known {
      var base := ParseBaseAmount(input);
      if base.Err? { return false; }
      var bps := [b.solverBps, b.impactBps, b.venueBps, b.routingBps];
      for k := 0 to 4
        invariant forall j :: 0 <= j < k ==> layers[j] == LayerAmount(base.value, bps[j])
      {
        if layers[k] != LayerAmount(base.value, bps[k]) {
          assert k == 0 || k == 1 || k == 2 || k == 3;
          return false;
        }
      }
      assert layers[0] == LayerAmount(base.value, bps[0]) && layers[1] == LayerAmount(base.value, bps[1]);
      assert layers[2] == LayerAmount(base.value, bps[2]) && layers[3] == LayerAmount(base.value, bps[3]);
    }
    ok := true;
  }

  /** Every computed breakdown passes the checker for its own amount, through printing and parsing. */
  lemma ComputedReconciles(base: nat, tier: Tier, asset: AssetClass, acpOrigin: bool, impactBps: nat)
    ensures var b := Computed(base, tier, asset, acpOrigin, impactBps); Shaped(b) && Reconciles(b, Ok(base))
  {
    var b := Computed(base, tier, asset, acpOrigin, impactBps);
    ParsePrint(LayerAmount(base, b.solverBps), 10);
    ParsePrint(LayerAmount(base, b.impactBps), 10);
    ParsePrint(LayerAmount(base, b.venueBps), 10);
    ParsePrint(LayerAmount(base, b.routingBps), 10);
    ParsePrint(LayerAmount(base, b.solverBps) + LayerAmount(base, b.impactBps) + LayerAmount(base, b.venueBps)
               + LayerAmount(base, b.routingBps), 10);
  }

  // What the amounts come to.

  function FeeAmount(base: nat, tier: Tier, asset: AssetClass, acpOrigin: bool, impactBps: nat): nat {
    LayerAmount(base, SolverBps(asset)) + LayerAmount(base, impactBps) + LayerAmount(base, VenueBps(tier, asset))
    + LayerAmount(base, if acpOrigin then 0 else RoutingBps(tier, asset))
  }

  lemma TotalIsFeeAmount(base: nat, tier: Tier, asset: AssetClass, acpOrigin: bool, impactBps: nat)
    ensures var b := Computed(base, tier, asset, acpOrigin, impactBps);
            IsNumeral(b.totalFee, 10) && Parse(b.totalFee, 10) == FeeAmount(base, tier, asset, acpOrigin, impactBps)
  {
    ParsePrint(FeeAmount(base, tier, asset, acpOrigin, impactBps), 10);
  }

  lemma FloorsOfParts(x: nat, y: nat, z: nat, w: nat)
    ensures var d := BPS_DENOMINATOR;
            (x + y + z + w) / d - 3 <= x / d + y / d + z / d + w / d <= (x + y + z + w) / d
  {
  }

  lemma ShareOfSum(base: int, s: int, i: int, v: int, r: int)
    ensures base * (s + i + v + r) == base * s + base * i + base * v + base * r
  {
  }

  lemma LayersJustBelow(base: nat, s: nat, i: nat, v: nat, r: nat)
    ensures var whole := LayerAmount(base, s + i + v + r);
            whole - 3 <= LayerAmount(base, s) + LayerAmount(base, i) + LayerAmount(base, v) + LayerAmount(base, r) <= whole
  {
    TimesNonNegative(base, s);
    TimesNonNegative(base, i);
    TimesNonNegative(base, v);
    TimesNonNegative(base, r);
    ShareOfSum(base, s, i, v, r);
    FloorsOfParts(base * s, base * i, base * v, base * r);
  }

  /** Four separate floors: the total is the floor of the whole share or at most 3 units below it. */
  lemma TotalJustBelowShare(base: nat, tier: Tier, asset: AssetClass, acpOrigin: bool, impactBps: nat)
    ensures var b := Computed(base, tier, asset, acpOrigin, impactBps);
            && IsNumeral(b.totalFee, 10)
            && LayerAmount(base, b.totalBps) - 3 <= Parse(b.totalFee, 10) <= LayerAmount(base, b.totalBps)
  {
    var b := Computed(base, tier, asset, acpOrigin, impactBps);
    TotalIsFeeAmount(base, tier, asset, acpOrigin, impactBps);
    LayersJustBelow(base, b.solverBps, b.impactBps, b.venueBps, b.routingBps);
  }

  lemma LayerMonotone(base: nat, bps: nat, bps': nat)
    requires bps <= bps'
    ensures LayerAmount(base, bps) <= LayerAmount(base, bps')
  {
    TimesMonotone(bps, bps', base);
    DivideMonotone(base * bps, base * bps', BPS_DENOMINATOR);
  }

  /** For any amount and any proofs: a higher integer trust score never pays more. */
  lemma HigherScoreNeverPaysMore(base: nat, score: int, score': int, provided: set<Attestation>, tier: Tier, tier': Tier,
                                 asset: AssetClass, acpOrigin: bool, impactBps: nat)
    requires score <= score'
    requires IsGated(tier, TierOf(score as real), provided) && IsGated(tier', TierOf(score' as real), provided)
    ensures FeeAmount(base, tier', asset, acpOrigin, impactBps) <= FeeAmount(base, tier, asset, acpOrigin, impactBps)
  {
    GateMonotone(score, score', provided, tier, tier');
    TierPaysNoMore(base, tier, tier', asset, acpOrigin, impactBps);
  }

  lemma BpsFallWithRank(tier: Tier, tier': Tier, asset: AssetClass)
    requires Rank(tier) <= Rank(tier')
    ensures VenueBps(tier', asset) <= VenueBps(tier, asset) && RoutingBps(tier', asset) <= RoutingBps(tier, asset)
  {
  }

  /** A better tier pays strictly less on 10,000 units, where no floor hides the difference. */
  lemma BetterTierPaysLess(tier: Tier, tier': Tier, asset: AssetClass, acpOrigin: bool, impactBps: nat)
    ensures Rank(tier) < Rank(tier') <==>
            FeeAmount(10_000, tier', asset, acpOrigin, impactBps) < FeeAmount(10_000, tier, asset, acpOrigin, impactBps)
  {
    assert forall bps: nat :: LayerAmount(10_000, bps) == bps;
  }

  lemma TierPaysNoMore(base: nat, tier: Tier, tier': Tier, asset: AssetClass, acpOrigin: bool, impactBps: nat)
    requires Rank(tier) <= Rank(tier')
    ensures FeeAmount(base, tier', asset, acpOrigin, impactBps) <= FeeAmount(base, tier, asset, acpOrigin, impactBps)
  {
    BpsFallWithRank(tier, tier', asset);
    LayerMonotone(base, VenueBps(tier', asset), VenueBps(tier, asset));
    LayerMonotone(base, RoutingBps(tier', asset), RoutingBps(tier, asset));
  }

  /** A higher score that is not whole, against a whole one that reaches a paid tier. */
  predicate FallsBack(score: real, score': real) {
    IsInteger(score) && score >= 25.0 && !IsInteger(score')
  }

  lemma GateFalls(score: real, score': real, provided: set<Attestation>, tier: Tier, tier': Tier)
    requires score <= score'
    requires IsGated(tier, TierOf(score), provided) && IsGated(tier', TierOf(score'), provided)
    ensures Rank(tier') < Rank(tier) <==> FallsBack(score, score')
  {
    if FallsBack(score, score') {
      assert Required(Trusted) <= provided && Rank(Trusted) <= Rank(TierOf(score));
    } else {
      assert Rank(TierOf(score)) <= Rank(TierOf(score'));
    }
  }

  /**
   Over all scores, whole or not: a higher score pays more for some amount exactly when it is a
   fraction and the lower one is whole and at least 25. Then it pays more on 10,000 units, and
   otherwise on no amount, whatever the proofs, assets and price impact.
   */
  lemma FractionalScorePaysMore(score: real, score': real, provided: set<Attestation>, tier: Tier, tier': Tier,
                                asset: AssetClass, acpOrigin: bool, impactBps: nat)
    requires score <= score'
    requires IsGated(tier, TierOf(score), provided) && IsGated(tier', TierOf(score'), provided)
    ensures FeeAmount(10_000, tier', asset, acpOrigin, impactBps) > FeeAmount(10_000, tier, asset, acpOrigin, impactBps)
            <==> FallsBack(score, score')
    ensures (forall base: nat :: FeeAmount(base, tier', asset, acpOrigin, impactBps) <= FeeAmount(base, tier, asset, acpOrigin, impactBps))
            <==> !FallsBack(score, score')
  {
    GateFalls(score, score', provided, tier, tier');
    BetterTierPaysLess(tier', tier, asset, acpOrigin, impactBps);
    if !FallsBack(score, score') {
      forall base: nat ensures FeeAmount(base, tier', asset, acpOrigin, impactBps) <= FeeAmount(base, tier, asset, acpOrigin, impactBps) {
        TierPaysNoMore(base, tier, tier', asset, acpOrigin, impactBps);
      }
    }
  }

  /** The checker pins a server's amounts: for known bps and amount only one set of numbers passes. */
  lemma CheckerPinsAmounts(a: Breakdown, b: Breakdown, base: nat)
    requires Shaped(a) && Shaped(b) && Reconciles(a, Ok(base)) && Reconciles(b, Ok(base))
    requires a.solverBps == b.solverBps && a.impactBps == b.impactBps && a.venueBps == b.venueBps && a.routingBps == b.routingBps
    ensures a.totalBps == b.totalBps && Parse(a.totalFee, 10) == Parse(b.totalFee, 10)
    ensures Parse(a.solverFee, 10) == Parse(b.solverFee, 10) && Parse(a.impactFee, 10) == Parse(b.impactFee, 10)
    ensures Parse(a.venueFee, 10) == Parse(b.venueFee, 10) && Parse(a.routingFee, 10) == Parse(b.routingFee, 10)
    ensures LayerAmount(base, a.totalBps) - 3 <= Parse(a.totalFee, 10) <= LayerAmount(base, a.totalBps)
  {
    LayersJustBelow(base, b.solverBps, b.impactBps, b.venueBps, b.routingBps);
  }

  /** The amount of an input: what was printed, leading zeros or not; a negative or malformed one has none. */
  lemma AmountIsRead(n: nat, zeros: nat, s: string, k: int)
    ensures ParseBaseAmount(Text(Zeros(zeros) + Print(n, 10))) == Ok(n)
    ensures ParseBaseAmount(Big(k)) == if k >= 0 then Ok(k) else Err
    ensures ParseBaseAmount(Text(s)).Ok? <==> s != [] && forall i :: 0 <= i < |s| ==> '0' <= s[i] <= '9'
  {
    ParsePadded(zeros, Print(n, 10), 10);
    ParsePrint(n, 10);
    DecimalDigits(s);
  }

  lemma DecimalDigits(s: string)
    ensures IsNumeral(s, 10) <==> s != [] && forall i :: 0 <= i < |s| ==> '0' <= s[i] <= '9'
  {
  }

  /** The whole rate of a trade, in basis points, with and without the routing layer. */
  function WholeRate(tier: Tier, asset: AssetClass, routed: bool): nat {
    match tier
    case Standard => if asset.Stable? then (if routed then 22 else 14) else if routed then 40 else 28
    case Trusted => if asset.Stable? then (if routed then 19 else 13) else if routed then 35 else 26
    case Verified => if asset.Stable? then (if routed then 15 else 11) else if routed then 29 else 23
    case Premium => if asset.Stable? then (if routed then 12 else 10) else if routed then 25 else 21
    case Institutional => if asset.Stable? then (if routed then 10 else 9) else if routed then 22 else 20
  }

  /**
   Layer by layer: the solver is paid 8 or 18 basis points whatever the tier, the impact as given, the
   venue and the routing the rest of the whole rate of the tier, nothing for routing on a trade of ACP
   origin; and each amount is reported under its own layer.
   */
  lemma LayersReported(base: nat, tier: Tier, asset: AssetClass, acpOrigin: bool, impactBps: nat)
    ensures var b := Computed(base, tier, asset, acpOrigin, impactBps);
            && b.solverBps == (if asset.Stable? then 8 else 18) && b.impactBps == impactBps
            && b.solverBps + b.venueBps == WholeRate(tier, asset, false)
            && b.routingBps == (if acpOrigin then 0 else WholeRate(tier, asset, true) - WholeRate(tier, asset, false))
            && b.totalBps == WholeRate(tier, asset, !acpOrigin) + impactBps
            && Shaped(b)
            && Parse(b.solverFee, 10) == base * b.solverBps / 10_000 && Parse(b.impactFee, 10) == base * b.impactBps / 10_000
            && Parse(b.venueFee, 10) == base * b.venueBps / 10_000 && Parse(b.routingFee, 10) == base * b.routingBps / 10_000
  {
    ComputedReconciles(base, tier, asset, acpOrigin, impactBps);
  }
}
