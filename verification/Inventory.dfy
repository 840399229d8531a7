/** The reference solver's float: committed when it quotes, consumed by a fill, given back by everything else. */
module Inventory {
  import opened Arithmetic
  import opened OrderedMap
  import opened Wrappers

  /** An amount off the wire, as `BigInt` takes it: a number, or text it throws on. */
  datatype Amount = Garbled | Number(n: int)

  datatype Token = Token(decimals: nat, minFill: int, maxFill: int)

  /** `<chainId>:<symbol>`. */
  datatype HoldKey = HoldKey(chain: int, symbol: string)

  const SUPPORTED_CHAINS: set<int> := {11155111, 84532, 421614, 11155420}
  const TOKENS: map<string, Token> := map["usdc" := Token(6, 1_000_000, 25_000_000_000)]
  const INITIAL_FLOAT := 50_000_000_000
  const OWN_COST_BPS := 14
  const PRICING_MS := 40
  const BID_LIFETIME_MS := 2_000
  const MAX_WINDOW_AHEAD_MS := 10_000
  const MAX_EXCLUSIVE_WINDOW_MS := 60_000
  const MAX_TRACKED := 512

  datatype Announcement = Announcement(
    intentId: string, exactInput: bool, fromChain: int, toChain: int, fromSymbol: string, toSymbol: string,
    fromAmount: Option<Amount>, minOutput: Amount, closesAt: int, exclusiveWindowMs: int)

  datatype Award = Award(intentId: string, output: Amount, exclusiveUntil: int)

  datatype Tracked = Tracked(fillDeadline: int, bidOutput: int, holdKey: HoldKey, held: int)

  /** The solver's books: uncommitted float, what fills paid out, and the live bids in the order they were made. */
  datatype Book = Book(inventory: map<HoldKey, int>, settled: map<HoldKey, int>, tracked: Entries<string, Tracked>)

  datatype Reply = Pass | Draft(output: int, validUntilMs: int) | Threw

  // Prices.

  function Pow10(n: nat): nat {
    if n == 0 then 1 else 10 * Pow10(n - 1)
  }

  /** BigInt division truncates toward zero. */
  function Quotient(a: int, b: int): int
    requires b > 0
  {
    if a >= 0 then a / b else -(-a / b)
  }

  lemma Pow10Positive(n: nat)
    ensures Pow10(n) > 0
  {
  }

  function Rescale(amount: int, fromDecimals: nat, toDecimals: nat): int {
    if fromDecimals == toDecimals then amount
    else if fromDecimals < toDecimals then amount * Pow10(toDecimals - fromDecimals)
    else
      Pow10Positive(fromDecimals - toDecimals);
      Quotient(amount, Pow10(fromDecimals - toDecimals))
  }

  function BpsBelow(amount: int, bps: int): int {
    amount - Quotient(amount * bps, 10_000)
  }

  // One step on the books.

  function At(m: map<HoldKey, int>, key: HoldKey): int {
    if key in m then m[key] else 0
  }

  function Add(m: map<HoldKey, int>, key: HoldKey, amount: int): map<HoldKey, int> {
    m[key := At(m, key) + amount]
  }

  /** The hold given back and the bid forgotten, if there is one. */
  function Drop(b: Book, intentId: string): Book {
    var i := Find(b.tracked, intentId);
    if i == |b.tracked| then b else
      var e := b.tracked[i].1;
      b.(inventory := Add(b.inventory, e.holdKey, e.held), tracked := Delete(b.tracked, intentId))
  }

  /** The time pass: every bid whose fill window has elapsed, dropped in the order they were made. */
  function Expire(inventory: map<HoldKey, int>, tracked: Entries<string, Tracked>, now: int)
    : (map<HoldKey, int>, Entries<string, Tracked>)
    decreases |tracked|
  {
    if tracked == [] then (inventory, []) else
      var e := tracked[0].1;
      if now > e.fillDeadline then Expire(Add(inventory, e.holdKey, e.held), tracked[1..], now)
      else
        var (after, kept) := Expire(inventory, tracked[1..], now);
        (after, [tracked[0]] + kept)
  }

  function Expired(b: Book, now: int): Book {
    var (inventory, tracked) := Expire(b.inventory, b.tracked, now);
    b.(inventory := inventory, tracked := tracked)
  }

  /** The live bid with the soonest fill deadline, the earliest made among equals. */
  function Soonest(tracked: Entries<string, Tracked>): (i: nat)
    requires tracked != []
    ensures i < |tracked|
    ensures forall j :: 0 <= j < |tracked| ==> tracked[i].1.fillDeadline <= tracked[j].1.fillDeadline
    ensures forall j :: 0 <= j < i ==> tracked[i].1.fillDeadline < tracked[j].1.fillDeadline
  {
    if |tracked| == 1 then 0 else
      var n := |tracked| - 1;
      var i := Soonest(tracked[..n]);
      if tracked[n].1.fillDeadline < tracked[i].1.fillDeadline then n else i
  }

  lemma DropShrinks(b: Book, i: nat)
    requires i < |b.tracked|
    ensures |Drop(b, b.tracked[i].0).tracked| == |b.tracked| - 1
  {
  }

  function Evicted(b: Book): Book
    decreases |b.tracked|
  {
    if |b.tracked| <= MAX_TRACKED then b else
      var i := Soonest(b.tracked);
      DropShrinks(b, i);
      Evicted(Drop(b, b.tracked[i].0))
  }

  function Pruned(b: Book, now: int): Book {
    Evicted(Expired(b, now))
  }

  /** Reasons to pass that cost nothing; `Threw` for an amount `BigInt` refuses. */
  function Filter(a: Announcement): Option<Reply> {
    if !a.exactInput then Some(Pass)
    else if a.fromChain !in SUPPORTED_CHAINS || a.toChain !in SUPPORTED_CHAINS then Some(Pass)
    else if a.fromSymbol !in TOKENS || a.toSymbol !in TOKENS then Some(Pass)
    else if a.fromAmount.None? then Some(Pass)
    else if a.fromAmount.value.Garbled? then Some(Threw)
    else if a.fromAmount.value.n < TOKENS[a.fromSymbol].minFill || a.fromAmount.value.n > TOKENS[a.fromSymbol].maxFill then Some(Pass)
    else None
  }

  function Refusal(now: int, a: Announcement): Option<Reply> {
    var remaining := a.closesAt - now;
    if remaining <= PRICING_MS || remaining > MAX_WINDOW_AHEAD_MS || a.exclusiveWindowMs > MAX_EXCLUSIVE_WINDOW_MS
    then Some(Pass)
    else Filter(a)
  }

  function Price(a: Announcement): int
    requires Filter(a).None?
  {
    BpsBelow(Rescale(a.fromAmount.value.n, TOKENS[a.fromSymbol].decimals, TOKENS[a.toSymbol].decimals), OWN_COST_BPS)
  }

  /** The books after a bid at `output` replaces the intent's earlier hold, and whether the float covered it. */
  function Committed(b: Book, a: Announcement, output: int): (Book, bool) {
    var freed := Drop(b, a.intentId);
    var key := HoldKey(a.toChain, a.toSymbol);
    if At(freed.inventory, key) < output then (freed, false)
    else
      (freed.(inventory := freed.inventory[key := At(freed.inventory, key) - output],
              tracked := freed.tracked + [(a.intentId, Tracked(a.closesAt + a.exclusiveWindowMs, output, key, output))]),
       true)
  }

  /** A quote: the books, the milliseconds pricing took, and the reply. The hold precedes a log line that divides by the floor. */
  function Quoted(b: Book, now: int, a: Announcement): (Book, int, Reply) {
    var p := Pruned(b, now);
    var refusal := Refusal(now, a);
    if refusal.Some? then (p, 0, refusal.value)
    else if a.minOutput.Garbled? then (p, PRICING_MS, Threw)
    else if Price(a) < a.minOutput.n then (p, PRICING_MS, Pass)
    else
      var (held, covered) := Committed(p, a, Price(a));
      (held, PRICING_MS,
       if !covered then Pass
       else if a.minOutput.n == 0 then Threw
       else Draft(Price(a), a.closesAt + BID_LIFETIME_MS))
  }

  predicate Fillable(b: Book, now: int, award: Award) {
    var i := Find(b.tracked, award.intentId);
    i < |b.tracked| && now < award.exclusiveUntil && award.output.Number? && award.output.n <= b.tracked[i].1.bidOutput
  }

  /** A fill consumes its hold; what the award left of it goes back. */
  function Filled(b: Book, now: int, award: Award): Book {
    if !Fillable(b, now, award) then b else
      var e, awarded := b.tracked[Find(b.tracked, award.intentId)].1, award.output.n;
      Book(if e.held - awarded > 0 then Add(b.inventory, e.holdKey, e.held - awarded) else b.inventory,
           Add(b.settled, e.holdKey, awarded),
           Delete(b.tracked, award.intentId))
  }

  // Runs.

  datatype Op = Quoting(a: Announcement) | Filling(award: Award) | Releasing(intentId: string) | Ticking(ms: nat)

  datatype State = State(book: Book, now: int)

  function Apply(s: State, op: Op): State {
    match op
    case Quoting(a) => var (book, took, _) := Quoted(s.book, s.now, a); State(book, s.now + took)
    case Filling(award) => s.(book := Filled(s.book, s.now, award))
    case Releasing(intentId) => s.(book := Drop(s.book, intentId))
    case Ticking(ms) => s.(now := s.now + ms)
  }

  function Run(s: State, ops: seq<Op>): State {
    if ops == [] then s else Apply(Run(s, ops[..|ops| - 1]), ops[|ops| - 1])
  }

  // Conservation.

  /** What live bids hold against a key. */
  function HeldOn(tracked: Entries<string, Tracked>, key: HoldKey): int {
    if tracked == [] then 0
    else (if tracked[0].1.holdKey == key then tracked[0].1.held else 0) + HeldOn(tracked[1..], key)
  }

  function Total(b: Book, key: HoldKey): int {
    At(b.inventory, key) + HeldOn(b.tracked, key) + At(b.settled, key)
  }

  function Opening(key: HoldKey): int {
    if key.chain in SUPPORTED_CHAINS && key.symbol == "usdc" then INITIAL_FLOAT else 0
  }

  /** Each key's uncommitted, held and settled amounts make up its float; nothing uncommitted or held is negative. */
  ghost predicate Conserved(b: Book) {
    && Distinct(b.tracked)
    && (forall key :: Total(b, key) == Opening(key) && At(b.inventory, key) >= 0)
    && (forall i :: 0 <= i < |b.tracked| ==> b.tracked[i].1.held == b.tracked[i].1.bidOutput >= 0)
  }

  lemma {:induction false} HeldConcat(a: Entries<string, Tracked>, b: Entries<string, Tracked>, key: HoldKey)
    ensures HeldOn(a + b, key) == HeldOn(a, key) + HeldOn(b, key)
  {
    if a == [] {
      assert a + b == b;
    } else {
      HeldConcat(a[1..], b, key);
      assert (a + b)[1..] == a[1..] + b;
    }
  }

  lemma HeldDelete(tracked: Entries<string, Tracked>, intentId: string, key: HoldKey)
    requires Find(tracked, intentId) < |tracked|
    ensures var e := tracked[Find(tracked, intentId)].1;
            HeldOn(Delete(tracked, intentId), key) == HeldOn(tracked, key) - (if e.holdKey == key then e.held else 0)
  {
    var i := Find(tracked, intentId);
    HeldConcat(tracked[..i], tracked[i..], key);
    HeldConcat(tracked[..i], tracked[i + 1..], key);
    assert tracked == tracked[..i] + tracked[i..] && tracked[i..][1..] == tracked[i + 1..];
  }

  lemma DeleteKeepsHeld(tracked: Entries<string, Tracked>, intentId: string)
    requires Distinct(tracked) && forall i :: 0 <= i < |tracked| ==> tracked[i].1.held == tracked[i].1.bidOutput >= 0
    ensures var t := Delete(tracked, intentId);
            Distinct(t) && forall i :: 0 <= i < |t| ==> t[i].1.held == t[i].1.bidOutput >= 0
  {
    var t := Delete(tracked, intentId);
    DeleteIsRemove(tracked, intentId);
    forall i | 0 <= i < |t| ensures t[i].1.held == t[i].1.bidOutput >= 0 {
      DeletedFrom(tracked, intentId, i);
    }
  }

  lemma DropConserves(b: Book, intentId: string)
    requires Conserved(b)
    ensures Conserved(Drop(b, intentId))
  {
    if Find(b.tracked, intentId) < |b.tracked| {
      DeleteKeepsHeld(b.tracked, intentId);
      forall key ensures Total(Drop(b, intentId), key) == Opening(key) && At(Drop(b, intentId).inventory, key) >= 0 {
        HeldDelete(b.tracked, intentId, key);
        assert Total(b, key) == Opening(key);
      }
    }
  }

  lemma {:induction false} ExpireConserves(inventory: map<HoldKey, int>, tracked: Entries<string, Tracked>, now: int, key: HoldKey)
    requires forall i :: 0 <= i < |tracked| ==> tracked[i].1.held >= 0
    ensures var (after, kept) := Expire(inventory, tracked, now);
            && At(after, key) + HeldOn(kept, key) == At(inventory, key) + HeldOn(tracked, key)
            && At(after, key) >= At(inventory, key)
    decreases |tracked|
  {
    if tracked != [] {
      var e := tracked[0].1;
      if now > e.fillDeadline {
        ExpireConserves(Add(inventory, e.holdKey, e.held), tracked[1..], now, key);
      } else {
        ExpireConserves(inventory, tracked[1..], now, key);
        var (_, kept) := Expire(inventory, tracked[1..], now);
        assert ([tracked[0]] + kept)[1..] == kept;
      }
    }
  }

  lemma {:induction false} ExpireKeeps(inventory: map<HoldKey, int>, tracked: Entries<string, Tracked>, now: int)
    requires Distinct(tracked)
    ensures var (_, kept) := Expire(inventory, tracked, now);
            && Distinct(kept)
            && (forall t :: t in kept <==> t in tracked && now <= t.1.fillDeadline)
    decreases |tracked|
  {
    if tracked != [] {
      var e := tracked[0].1;
      var rest := tracked[1..];
      assert forall t :: t in tracked <==> t == tracked[0] || t in rest;
      if now > e.fillDeadline {
        ExpireKeeps(Add(inventory, e.holdKey, e.held), rest, now);
      } else {
        ExpireKeeps(inventory, rest, now);
        var (_, kept) := Expire(inventory, rest, now);
        forall j | 0 <= j < |kept| ensures kept[j].0 != tracked[0].0 {
          assert kept[j] in rest;
        }
      }
    }
  }

  lemma ExpiredConserves(b: Book, now: int)
    requires Conserved(b)
    ensures Conserved(Expired(b, now))
  {
    var e := Expired(b, now);
    ExpireKeeps(b.inventory, b.tracked, now);
    forall i | 0 <= i < |e.tracked| ensures e.tracked[i].1.held == e.tracked[i].1.bidOutput >= 0 {
      assert e.tracked[i] in b.tracked;
    }
    forall key ensures Total(e, key) == Opening(key) && At(e.inventory, key) >= 0 {
      ExpireConserves(b.inventory, b.tracked, now, key);
      assert Total(b, key) == Opening(key);
    }
  }

  /** Every bid kept stays where it was, and none that is given up is due after one that is kept. */
  predicate KeepsLatest(before: Entries<string, Tracked>, after: Entries<string, Tracked>) {
    && (forall t :: t in after ==> t in before)
    && forall t, u :: t in before && t !in after && u in after ==> t.1.fillDeadline <= u.1.fillDeadline
  }

  lemma RemovedOne(tracked: Entries<string, Tracked>, i: nat)
    requires Distinct(tracked) && i < |tracked|
    ensures var t := tracked[..i] + tracked[i + 1..];
            Distinct(t) && forall e :: e in tracked <==> e in t || e == tracked[i]
  {
    RemovedDistinct(tracked, i);
    assert tracked == tracked[..i] + [tracked[i]] + tracked[i + 1..];
  }

  /**
   A live bid is given up only when more than 512 are live: then 512 are kept, and those given up are
   due no later than any that is kept.
   */
  lemma {:induction false} EvictsSoonest(b: Book)
    requires Distinct(b.tracked)
    ensures |Evicted(b).tracked| == (if |b.tracked| <= 512 then |b.tracked| else 512)
    ensures |b.tracked| <= 512 ==> Evicted(b) == b
    ensures KeepsLatest(b.tracked, Evicted(b).tracked)
    decreases |b.tracked|
  {
    if |b.tracked| > MAX_TRACKED {
      var i := Soonest(b.tracked);
      DropShrinks(b, i);
      FindIs(b.tracked, b.tracked[i].0, i);
      RemovedOne(b.tracked, i);
      var t := Drop(b, b.tracked[i].0);
      assert t.tracked == b.tracked[..i] + b.tracked[i + 1..];
      EvictsSoonest(t);
      assert KeepsLatest(t.tracked, Evicted(t).tracked);
      forall e, u | e in b.tracked && e !in Evicted(t).tracked && u in Evicted(t).tracked
        ensures e.1.fillDeadline <= u.1.fillDeadline
      {
        assert u in b.tracked;
        assert e in t.tracked || e == b.tracked[i];
      }
    }
  }

  lemma {:induction false} EvictedConserves(b: Book)
    requires Conserved(b)
    ensures Conserved(Evicted(b)) && |Evicted(b).tracked| <= MAX_TRACKED
    decreases |b.tracked|
  {
    if |b.tracked| > MAX_TRACKED {
      var i := Soonest(b.tracked);
      DropShrinks(b, i);
      DropConserves(b, b.tracked[i].0);
      EvictedConserves(Drop(b, b.tracked[i].0));
    }
  }

  lemma CommittedConserves(b: Book, a: Announcement, output: int)
    requires Conserved(b) && output >= 0
    ensures Conserved(Committed(b, a, output).0)
  {
    var freed := Drop(b, a.intentId);
    var (c, covered) := Committed(b, a, output);
    DropConserves(b, a.intentId);
    if covered {
      DropForgets(b, a.intentId);
      var bid := c.tracked[|freed.tracked|];
      forall key ensures Total(c, key) == Opening(key) && At(c.inventory, key) >= 0 {
        HeldConcat(freed.tracked, [bid], key);
        assert HeldOn([bid], key) == if bid.1.holdKey == key then output else 0;
        assert Total(freed, key) == Opening(key);
      }
    }
  }

  lemma DropForgets(b: Book, intentId: string)
    requires Distinct(b.tracked)
    ensures Find(Drop(b, intentId).tracked, intentId) == |Drop(b, intentId).tracked|
  {
    DeletedAbsent(b.tracked, intentId);
  }

  lemma PriceNonNegative(a: Announcement)
    requires Filter(a).None?
    ensures 0 <= Price(a) <= a.fromAmount.value.n
  {
  }

  lemma QuotedConserves(b: Book, now: int, a: Announcement)
    requires Conserved(b)
    ensures Conserved(Quoted(b, now, a).0)
  {
    ExpiredConserves(b, now);
    EvictedConserves(Expired(b, now));
    if Refusal(now, a).None? {
      PriceNonNegative(a);
      CommittedConserves(Pruned(b, now), a, Price(a));
    }
  }

  lemma FilledConserves(b: Book, now: int, award: Award)
    requires Conserved(b)
    ensures Conserved(Filled(b, now, award))
  {
    if Fillable(b, now, award) {
      var f := Filled(b, now, award);
      DeleteKeepsHeld(b.tracked, award.intentId);
      forall key ensures Total(f, key) == Opening(key) && At(f.inventory, key) >= 0 {
        HeldDelete(b.tracked, award.intentId, key);
        assert Total(b, key) == Opening(key);
      }
    }
  }

  lemma ApplyConserves(s: State, op: Op)
    requires Conserved(s.book)
    ensures Conserved(Apply(s, op).book)
  {
    match op
    case Quoting(a) => QuotedConserves(s.book, s.now, a);
    case Filling(award) => FilledConserves(s.book, s.now, award);
    case Releasing(intentId) => DropConserves(s.book, intentId);
    case Ticking(ms) =>
  }

  predicate Init(s: State) {
    && s.book.tracked == [] && s.book.settled == map[]
    && s.book.inventory == map chain | chain in SUPPORTED_CHAINS :: HoldKey(chain, "usdc") := INITIAL_FLOAT
  }

  lemma {:induction false} RunConserves(s: State, ops: seq<Op>)
    requires Init(s)
    ensures Conserved(Run(s, ops).book)
  {
    if ops == [] {
      forall key ensures Total(s.book, key) == Opening(key) && At(s.book.inventory, key) >= 0 {
        if key.chain in SUPPORTED_CHAINS && key.symbol == "usdc" {
          assert key == HoldKey(key.chain, "usdc");
        }
      }
    } else {
      RunConserves(s, ops[..|ops| - 1]);
      ApplyConserves(Run(s, ops[..|ops| - 1]), ops[|ops| - 1]);
    }
  }

  /** Whatever was quoted, re-quoted, refused, awarded, expired or evicted: payouts and live bids together fit the float. */
  lemma OverlappingWinsFit(s: State, ops: seq<Op>, key: HoldKey)
    requires Init(s)
    ensures var b := Run(s, ops).book;
            && At(b.inventory, key) + HeldOn(b.tracked, key) + At(b.settled, key)
               == (if key.symbol == "usdc" && key.chain in {11155111, 84532, 421614, 11155420} then 50_000_000_000 else 0)
            && At(b.inventory, key) >= 0
            && HeldOn(b.tracked, key) + At(b.settled, key) <= Opening(key)
  {
    RunConserves(s, ops);
    assert Total(Run(s, ops).book, key) == Opening(key);
  }

  predicate NeverNegative(ops: seq<Op>) {
    forall i :: 0 <= i < |ops| && ops[i].Filling? && ops[i].award.output.Number? ==> ops[i].award.output.n >= 0
  }

  /** A fill lowers what a key has settled exactly when it is for a negative amount, which nothing refuses. */
  lemma NegativeAwardUnsettles(b: Book, now: int, award: Award, key: HoldKey)
    ensures At(Filled(b, now, award).settled, key) < At(b.settled, key) <==>
            Fillable(b, now, award) && b.tracked[Find(b.tracked, award.intentId)].1.holdKey == key && award.output.n < 0
  {
  }

  /** While no award is negative, payouts alone and live bids alone fit the float. */
  lemma {:induction false} PayoutsFit(s: State, ops: seq<Op>, key: HoldKey)
    requires Init(s) && NeverNegative(ops)
    ensures var b := Run(s, ops).book; 0 <= At(b.settled, key) <= Opening(key) && HeldOn(b.tracked, key) <= Opening(key)
  {
    OverlappingWinsFit(s, ops, key);
    HeldNonNegative(s, ops, key);
    if ops != [] {
      var t, op := Run(s, ops[..|ops| - 1]), ops[|ops| - 1];
      PayoutsFit(s, ops[..|ops| - 1], key);
      match op
      case Quoting(a) => QuotedSettled(t.book, t.now, a);
      case Filling(award) => NegativeAwardUnsettles(t.book, t.now, award, key);
      case Releasing(_) =>
      case Ticking(_) =>
    }
  }

  lemma HeldNonNegative(s: State, ops: seq<Op>, key: HoldKey)
    requires Init(s)
    ensures HeldOn(Run(s, ops).book.tracked, key) >= 0
  {
    RunConserves(s, ops);
    HoldsNonNegative(Run(s, ops).book.tracked, key);
  }

  lemma {:induction false} HoldsNonNegative(tracked: Entries<string, Tracked>, key: HoldKey)
    requires forall i :: 0 <= i < |tracked| ==> tracked[i].1.held >= 0
    ensures HeldOn(tracked, key) >= 0
  {
    if tracked != [] {
      HoldsNonNegative(tracked[1..], key);
    }
  }

  lemma QuotedSettled(b: Book, now: int, a: Announcement)
    ensures Quoted(b, now, a).0.settled == b.settled
  {
    PrunedSettled(b, now);
    if Refusal(now, a).None? {
      CommittedSettled(Pruned(b, now), a, Price(a));
    }
  }

  lemma PrunedSettled(b: Book, now: int)
    ensures Pruned(b, now).settled == b.settled
  {
    EvictedSettled(Expired(b, now));
  }

  lemma CommittedSettled(b: Book, a: Announcement, output: int)
    ensures Committed(b, a, output).0.settled == b.settled
  {
  }

  lemma {:induction false} EvictedSettled(b: Book)
    ensures Evicted(b).settled == b.settled
    decreases |b.tracked|
  {
    if |b.tracked| > MAX_TRACKED {
      var i := Soonest(b.tracked);
      DropShrinks(b, i);
      EvictedSettled(Drop(b, b.tracked[i].0));
    }
  }

  // What one call means for another.

  /** A draft is held in full, once, at a price between the floor and the deliverable. */
  lemma DraftIsHeld(b: Book, now: int, a: Announcement)
    requires Distinct(b.tracked)
    ensures var (after, _, reply) := Quoted(b, now, a);
            reply.Draft? ==>
              && reply.output == Price(a) && a.minOutput.n <= reply.output <= a.fromAmount.value.n
              && var i := Find(after.tracked, a.intentId);
                 && i == |after.tracked| - 1
                 && after.tracked[i].1.held == after.tracked[i].1.bidOutput == reply.output
                 && after.tracked[i].1.holdKey == HoldKey(a.toChain, a.toSymbol)
  {
    PrunedDistinct(b, now);
    if Refusal(now, a).None? {
      PriceNonNegative(a);
      CommittedLast(Pruned(b, now), a, Price(a));
    }
  }

  lemma PrunedDistinct(b: Book, now: int)
    requires Distinct(b.tracked)
    ensures Distinct(Pruned(b, now).tracked)
  {
    ExpireKeeps(b.inventory, b.tracked, now);
    EvictedDistinct(Expired(b, now));
  }

  lemma {:induction false} EvictedDistinct(b: Book)
    requires Distinct(b.tracked)
    ensures Distinct(Evicted(b).tracked)
    decreases |b.tracked|
  {
    if |b.tracked| > MAX_TRACKED {
      var i := Soonest(b.tracked);
      DropShrinks(b, i);
      DeleteIsRemove(b.tracked, b.tracked[i].0);
      EvictedDistinct(Drop(b, b.tracked[i].0));
    }
  }

  lemma CommittedLast(b: Book, a: Announcement, output: int)
    requires Distinct(b.tracked)
    ensures var (c, covered) := Committed(b, a, output);
            && (covered ==> Find(c.tracked, a.intentId) == |c.tracked| - 1)
            && (!covered ==> Find(c.tracked, a.intentId) == |c.tracked|)
  {
    var freed := Drop(b, a.intentId);
    var (c, covered) := Committed(b, a, output);
    DropForgets(b, a.intentId);
    if covered {
      FindIs(c.tracked, a.intentId, |freed.tracked|);
    }
  }

  /** Handing a refused bid back leaves the books as if the quote had only dropped the intent's earlier hold. */
  lemma ReleaseUndoesCommit(b: Book, a: Announcement, output: int, key: HoldKey)
    requires Distinct(b.tracked)
    ensures var freed, back := Drop(b, a.intentId), Drop(Committed(b, a, output).0, a.intentId);
            && back.tracked == freed.tracked && back.settled == freed.settled
            && At(back.inventory, key) == At(freed.inventory, key)
  {
    var freed := Drop(b, a.intentId);
    var (c, covered) := Committed(b, a, output);
    CommittedLast(b, a, output);
    DropForgets(b, a.intentId);
    if covered {
      var bid := c.tracked[|freed.tracked|].1;
      DeleteAppended(freed.tracked, a.intentId, bid);
      assert c.tracked == freed.tracked + [(a.intentId, bid)];
    }
  }

  /**
   When a quote throws while its intent is held. On a floor of zero the throw comes after the new
   hold is taken; on an amount or a floor `BigInt` cannot read, it leaves the hold of an earlier
   bid, live at the venue. The error hook then gives either hold back.
   */
  lemma ThrownQuoteHoldsExactly(b: Book, now: int, a: Announcement)
    requires Distinct(b.tracked)
    ensures var p := Pruned(b, now);
            var (after, _, reply) := Quoted(b, now, a);
            var i, j := Find(p.tracked, a.intentId), Find(after.tracked, a.intentId);
            && (reply == Threw && j < |after.tracked| <==>
                || (Refusal(now, a).None? && a.minOutput == Number(0) && Committed(p, a, Price(a)).1)
                || (i < |p.tracked| && (Refusal(now, a) == Some(Threw) || (Refusal(now, a).None? && a.minOutput.Garbled?))))
            && (reply == Threw && a.minOutput != Number(0) ==> after == p)
            && (reply == Threw ==>
                  && Drop(after, a.intentId).tracked == Drop(p, a.intentId).tracked
                  && Find(Drop(after, a.intentId).tracked, a.intentId) == |Drop(after, a.intentId).tracked|
                  && forall key :: At(Drop(after, a.intentId).inventory, key) == At(Drop(p, a.intentId).inventory, key))
  {
    PrunedDistinct(b, now);
    DropForgets(Pruned(b, now), a.intentId);
    if Refusal(now, a).None? {
      PriceNonNegative(a);
      CommittedLast(Pruned(b, now), a, Price(a));
      forall key {
        ReleaseUndoesCommit(Pruned(b, now), a, Price(a), key);
      }
    }
  }

  /**
   A quote that prices above its floor leaves its intent fillable exactly when the float, with
   the intent's own earlier hold given back, covers the new price. Refused there, a re-quote
   has already dropped the hold of a bid that is still live at the venue.
   */
  lemma RequoteKeepsIntentExactly(b: Book, now: int, a: Announcement, award: Award)
    requires Distinct(b.tracked) && Refusal(now, a).None? && a.minOutput.Number? && Price(a) >= a.minOutput.n
    requires award.intentId == a.intentId && award.output == Number(Price(a)) && now + PRICING_MS < award.exclusiveUntil
    ensures var (after, took, _) := Quoted(b, now, a);
            Fillable(after, now + took, award) <==>
            At(Drop(Pruned(b, now), a.intentId).inventory, HoldKey(a.toChain, a.toSymbol)) >= Price(a)
  {
    PrunedDistinct(b, now);
    CommittedLast(Pruned(b, now), a, Price(a));
  }

  /**
   A fillable award is paid once: out of its bid's hold, the rest of which goes back, on that bid's key
   alone; the same intent awarded again pays nothing.
   */
  lemma FillPaysOnce(s: State, award: Award, again: Award, key: HoldKey)
    requires Conserved(s.book) && Fillable(s.book, s.now, award) && again.intentId == award.intentId
    ensures var e := s.book.tracked[Find(s.book.tracked, award.intentId)].1;
            var t := Apply(s, Filling(award));
            && At(t.book.settled, key) == At(s.book.settled, key) + (if key == e.holdKey then award.output.n else 0)
            && At(t.book.inventory, key) == At(s.book.inventory, key) + (if key == e.holdKey then e.bidOutput - award.output.n else 0)
            && t.now == s.now && Apply(t, Filling(again)) == t
  {
    DeletedAbsent(s.book.tracked, award.intentId);
  }

  /**
   An award is filled exactly when its intent has a live bid, its window is still open and it is for a
   number no larger than the bid; otherwise nothing changes.
   */
  lemma FilledExactly(s: State, award: Award)
    requires Distinct(s.book.tracked)
    ensures Apply(s, Filling(award)) != s <==>
            exists i :: 0 <= i < |s.book.tracked| && s.book.tracked[i].0 == award.intentId && s.now < award.exclusiveUntil
                        && award.output.Number? && award.output.n <= s.book.tracked[i].1.bidOutput
  {
    if i :| 0 <= i < |s.book.tracked| && s.book.tracked[i].0 == award.intentId {
      FindIs(s.book.tracked, award.intentId, i);
    }
    DeletedAbsent(s.book.tracked, award.intentId);
  }

  /** A refused bid's hold goes back in full to the key it was held on, once. */
  lemma ReleaseGivesBack(s: State, intentId: string, key: HoldKey)
    requires Distinct(s.book.tracked) && Find(s.book.tracked, intentId) < |s.book.tracked|
    ensures var e := s.book.tracked[Find(s.book.tracked, intentId)].1;
            var t := Apply(s, Releasing(intentId));
            && At(t.book.inventory, key) == At(s.book.inventory, key) + (if key == e.holdKey then e.held else 0)
            && t.book.settled == s.book.settled && t.now == s.now && Apply(t, Releasing(intentId)) == t
  {
    DropForgets(s.book, intentId);
  }

  /** Time goes forward: by 40 milliseconds for a quote that gets as far as its price, and by nothing else the solver does. */
  lemma ClockMoves(s: State, op: Op)
    ensures Apply(s, op).now == s.now + (match op
      case Quoting(a) => if Refusal(s.now, a).None? then 40 else 0
      case Ticking(ms) => ms
      case _ => 0)
  {
  }

  // A live bid stays fillable.

  predicate Names(op: Op, intentId: string) {
    match op
    case Quoting(a) => a.intentId == intentId
    case Filling(award) => award.intentId == intentId
    case Releasing(id) => id == intentId
    case Ticking(_) => false
  }

  predicate Live(b: Book, intentId: string, e: Tracked) {
    var i := Find(b.tracked, intentId);
    i < |b.tracked| && b.tracked[i].1 == e
  }

  /** The op is about another intent, and a quote comes no later than `until`, with room for all live bids. */
  predicate Spares(s: State, op: Op, intentId: string, until: int) {
    && !Names(op, intentId)
    && (op.Quoting? ==> s.now <= until && |Expired(s.book, s.now).tracked| <= MAX_TRACKED)
  }

  predicate SparedBy(s: State, ops: seq<Op>, intentId: string, until: int) {
    ops == []
    || (SparedBy(s, ops[..|ops| - 1], intentId, until) && Spares(Run(s, ops[..|ops| - 1]), ops[|ops| - 1], intentId, until))
  }

  lemma DeleteOther(tracked: Entries<string, Tracked>, intentId: string, other: string)
    requires Distinct(tracked) && Find(tracked, intentId) < |tracked| && other != intentId
    ensures var t := Delete(tracked, other);
            Distinct(t) && Find(t, intentId) < |t| && t[Find(t, intentId)] == tracked[Find(tracked, intentId)]
  {
    DeleteIsRemove(tracked, other);
    InMap(tracked, intentId);
    InMap(Delete(tracked, other), intentId);
  }

  lemma LiveMember(b: Book, intentId: string, e: Tracked)
    requires Distinct(b.tracked)
    ensures Live(b, intentId, e) <==> (intentId, e) in b.tracked
  {
    if (intentId, e) in b.tracked {
      var i :| 0 <= i < |b.tracked| && b.tracked[i] == (intentId, e);
      FindIs(b.tracked, intentId, i);
    }
  }

  lemma DropSpares(b: Book, intentId: string, e: Tracked, other: string)
    requires Distinct(b.tracked) && Live(b, intentId, e) && other != intentId
    ensures Distinct(Drop(b, other).tracked) && Live(Drop(b, other), intentId, e)
  {
    DeleteOther(b.tracked, intentId, other);
  }

  lemma ApplySpares(s: State, op: Op, intentId: string, e: Tracked)
    requires Distinct(s.book.tracked) && Live(s.book, intentId, e) && Spares(s, op, intentId, e.fillDeadline)
    ensures Live(Apply(s, op).book, intentId, e)
  {
    match op
    case Quoting(a) =>
      LiveMember(s.book, intentId, e);
      ExpireKeeps(s.book.inventory, s.book.tracked, s.now);
      var p := Pruned(s.book, s.now);
      LiveMember(p, intentId, e);
      DropSpares(p, intentId, e, a.intentId);
      var freed := Drop(p, a.intentId);
      if Refusal(s.now, a).None? && Committed(p, a, Price(a)).1 {
        var c := Committed(p, a, Price(a)).0;
        FindIs(c.tracked, intentId, Find(freed.tracked, intentId));
      }
    case Filling(award) => DeleteOther(s.book.tracked, intentId, award.intentId);
    case Releasing(other) => DropSpares(s.book, intentId, e, other);
    case Ticking(ms) =>
  }

  lemma {:induction false} RunSpares(s: State, ops: seq<Op>, intentId: string, e: Tracked)
    requires Conserved(s.book) && Live(s.book, intentId, e) && SparedBy(s, ops, intentId, e.fillDeadline)
    ensures Conserved(Run(s, ops).book) && Live(Run(s, ops).book, intentId, e)
  {
    if ops != [] {
      var prior := ops[..|ops| - 1];
      RunSpares(s, prior, intentId, e);
      ApplyConserves(Run(s, prior), ops[|ops| - 1]);
      ApplySpares(Run(s, prior), ops[|ops| - 1], intentId, e);
    }
  }

  /**
   A bid is a firm offer: whatever other auctions do meanwhile, an award at its price or below,
   in its exclusive window, is filled out of its own hold and leaves every key's float balanced.
   */
  lemma BidIsFirm(s: State, ops: seq<Op>, e: Tracked, award: Award)
    requires Conserved(s.book) && Live(s.book, award.intentId, e) && SparedBy(s, ops, award.intentId, e.fillDeadline)
    requires award.output.Number? && award.output.n <= e.bidOutput && Run(s, ops).now < award.exclusiveUntil
    ensures var t := Run(s, ops);
            && Fillable(t.book, t.now, award) && Conserved(Filled(t.book, t.now, award))
            && At(Filled(t.book, t.now, award).settled, e.holdKey) == At(t.book.settled, e.holdKey) + award.output.n
  {
    RunSpares(s, ops, award.intentId, e);
    FilledConserves(Run(s, ops).book, Run(s, ops).now, award);
  }

  /**
   So a draft stands to the end of the exclusive window it was announced with: whatever other auctions
   do meanwhile, an award at its output or below, in time, is filled.
   */
  lemma DraftIsFirm(s: State, t: State, a: Announcement, draft: Reply, windowEnd: int, ops: seq<Op>, output: int, until: int)
    requires Conserved(s.book) && t == Apply(s, Quoting(a)) && draft == Quoted(s.book, s.now, a).2 && draft.Draft?
    requires windowEnd == a.closesAt + a.exclusiveWindowMs && SparedBy(t, ops, a.intentId, windowEnd)
    requires output <= draft.output && Run(t, ops).now < until
    ensures var u, key, award := Run(t, ops), HoldKey(a.toChain, a.toSymbol), Award(a.intentId, Number(output), until);
            && Fillable(u.book, u.now, award)
            && At(Filled(u.book, u.now, award).settled, key) == At(u.book.settled, key) + output
  {
    DraftHeld(s, t, a, draft);
    var key := HoldKey(a.toChain, a.toSymbol);
    var e := Tracked(windowEnd, draft.output, key, draft.output);
    BidIsFirm(t, ops, e, Award(a.intentId, Number(output), until));
  }

  lemma DraftHeld(s: State, t: State, a: Announcement, draft: Reply)
    requires Conserved(s.book) && t == Apply(s, Quoting(a)) && draft == Quoted(s.book, s.now, a).2 && draft.Draft?
    ensures Conserved(t.book)
    ensures Live(t.book, a.intentId,
                 Tracked(a.closesAt + a.exclusiveWindowMs, draft.output, HoldKey(a.toChain, a.toSymbol), draft.output))
  {
    ApplyConserves(s, Quoting(a));
    DraftTracked(s.book, s.now, a);
  }

  lemma DraftTracked(b: Book, now: int, a: Announcement)
    requires Distinct(b.tracked) && Quoted(b, now, a).2.Draft?
    ensures var (after, _, reply) := Quoted(b, now, a);
            Live(after, a.intentId, Tracked(a.closesAt + a.exclusiveWindowMs, reply.output, HoldKey(a.toChain, a.toSymbol), reply.output))
  {
    PrunedDistinct(b, now);
    CommittedLast(Pruned(b, now), a, Price(a));
  }

  // The terms of a draft.

  predicate OnTestnet(chain: int) {
    chain == 11155111 || chain == 84532 || chain == 421614 || chain == 11155420
  }

  /** An announcement the solver can price, in numbers. */
  predicate Priceable(now: int, a: Announcement) {
    && a.exactInput && OnTestnet(a.fromChain) && OnTestnet(a.toChain) && a.fromSymbol == "usdc" && a.toSymbol == "usdc"
    && a.fromAmount.Some? && a.fromAmount.value.Number? && 1_000_000 <= a.fromAmount.value.n <= 25_000_000_000
    && 40 < a.closesAt - now <= 10_000 && a.exclusiveWindowMs <= 60_000
  }

  lemma PriceableExactly(now: int, a: Announcement)
    ensures Refusal(now, a).None? <==> Priceable(now, a)
    ensures Priceable(now, a) ==> Price(a) == a.fromAmount.value.n - a.fromAmount.value.n * 14 / 10_000
  {
    assert TOKENS.Keys == {"usdc"};
  }

  /**
   A draft is made exactly for a priceable announcement whose floor is a number other than zero and at
   most the amount less 14 basis points, when the float with the intent's earlier hold returned covers
   that price. It offers the price, until two seconds past the close.
   */
  lemma DraftTerms(b: Book, now: int, a: Announcement)
    ensures var (after, took, reply) := Quoted(b, now, a);
            && (reply.Draft? <==>
                && Priceable(now, a) && a.minOutput.Number?
                && var price := a.fromAmount.value.n - a.fromAmount.value.n * 14 / 10_000;
                   && a.minOutput.n != 0 && a.minOutput.n <= price
                   && At(Drop(Pruned(b, now), a.intentId).inventory, HoldKey(a.toChain, a.toSymbol)) >= price)
            && (reply.Draft? ==>
                  && reply.output == a.fromAmount.value.n - a.fromAmount.value.n * 14 / 10_000
                  && reply.validUntilMs == a.closesAt + 2_000)
            && took == (if Priceable(now, a) then 40 else 0)
  {
    PriceableExactly(now, a);
    if Refusal(now, a).None? {
      PriceNonNegative(a);
    }
  }

  /** Rescaling is exact to more decimals and drops what is less than a unit, toward zero, to fewer. */
  lemma RescaleTruncates(amount: int, fromDecimals: nat, toDecimals: nat)
    ensures var r := Rescale(amount, fromDecimals, toDecimals);
            if fromDecimals <= toDecimals then r == amount * Pow10(toDecimals - fromDecimals)
            else
              var unit := Pow10(fromDecimals - toDecimals);
              if amount >= 0 then r * unit <= amount < r * unit + unit else r * unit - unit < amount <= r * unit
  {
    if fromDecimals > toDecimals {
      var unit := Pow10(fromDecimals - toDecimals);
      Pow10Positive(fromDecimals - toDecimals);
      var size := if amount >= 0 then amount else -amount;
      var q := size / unit;
      assert size == q * unit + size % unit;
      assert (-q) * unit == -(q * unit);
    }
  }

  /** Scaling up and back is exact; scaling down and back loses less than one unit. */
  lemma RescaleBack(amount: nat, fewer: nat, more: nat)
    requires fewer <= more
    ensures Rescale(Rescale(amount, fewer, more), more, fewer) == amount
    ensures 0 <= amount - Rescale(Rescale(amount, more, fewer), fewer, more) < Pow10(more - fewer)
  {
    var unit := Pow10(more - fewer);
    Pow10Positive(more - fewer);
    if fewer < more {
      TimesQuotient(amount, unit);
    }
  }

  lemma TimesQuotient(amount: nat, unit: int)
    requires unit > 0
    ensures amount * unit >= 0 && amount * unit / unit == amount && 0 <= amount - amount / unit * unit < unit && amount / unit >= 0
  {
    TimesNonNegative(amount, unit);
    QuotientIs(amount * unit, unit, amount, 0);
    DividesNonNegative(amount, unit);
    assert amount == amount / unit * unit + amount % unit;
  }
}
