/**
 The stub auctioneer: sealed bids over overlapping windows, each closed once and settled by
 its own selection rules. The feed's consumer may submit bids between any two steps.
 */
module Auction {
  import opened OrderedMap
  import opened Wrappers

  /** Auction, intent and (lowercased) solver ids. */
  type Id = nat

  datatype Announcement = Announcement(auction: Id, intent: Id, minOutput: int, closesAt: int, exclusiveWindowMs: int)

  datatype Bid = Bid(auction: Id, intent: Id, solver: Id, output: int, validUntilMs: int)

  /** A scripted round; `reserve` is the venue's own bid and is not announced. */
  datatype Round = Round(announcement: Announcement, reserve: int, clockAt: int, rivals: seq<Bid>)

  datatype Award = Award(auction: Id, intent: Id, solver: Id, output: int, exclusiveUntil: int)

  type Sealed = Entries<Id, Bid>

  /** A bid the house took in, and its clock at that moment. */
  datatype Receipt = Receipt(bid: Bid, at: int)

  datatype Closing = Closing(round: Round, book: Sealed, award: Option<Award>)

  /** `delivered` rounds of the script are announced; `accepted` and `closed` are history. */
  datatype House = House(clock: int, delivered: nat, open: map<Id, Announcement>, live: map<Id, Sealed>,
                         pending: seq<Round>, accepted: seq<Receipt>, closed: seq<Closing>)

  const NET_LATENCY_MS := 25
  const MAX_SAFE_INTEGER := 9007199254740991

  function BookOf(live: map<Id, Sealed>, auction: Id): Sealed {
    if auction in live then live[auction] else []
  }

  // Submissions.

  /** The acceptance rules after the signature: an open auction, its intent, its floor, and in time. */
  predicate Admits(h: House, bid: Bid, at: int) {
    && bid.auction in h.open
    && bid.intent == h.open[bid.auction].intent
    && bid.output >= h.open[bid.auction].minOutput
    && at < h.open[bid.auction].closesAt
  }

  function Submitted(h: House, verifies: Bid -> bool, bid: Bid): House {
    var at := h.clock + NET_LATENCY_MS;
    if verifies(bid) && Admits(h, bid, at) then
      h.(clock := at,
         live := h.live[bid.auction := Set(BookOf(h.live, bid.auction), bid.solver, bid)],
         accepted := h.accepted + [Receipt(bid, at)])
    else h.(clock := at)
  }

  function SubmittedAll(h: House, verifies: Bid -> bool, bids: seq<Bid>): House {
    if bids == [] then h
    else Submitted(SubmittedAll(h, verifies, bids[..|bids| - 1]), verifies, bids[|bids| - 1])
  }

  // Selection.

  predicate Stands(bid: Bid, at: int) {
    at <= bid.validUntilMs
  }

  /** The place of the best standing bid, the first entered among equals; the length if none stands. */
  function Best(book: Sealed, at: int): (i: nat)
    ensures i <= |book|
    ensures i < |book| ==> Stands(book[i].1, at)
    ensures forall j :: 0 <= j < |book| && Stands(book[j].1, at) ==> i < |book| && book[j].1.output <= book[i].1.output
    ensures forall j :: 0 <= j < i < |book| && Stands(book[j].1, at) ==> book[j].1.output < book[i].1.output
  {
    if book == [] then 0 else
      var n := |book| - 1;
      var i := Best(book[..n], at);
      if !Stands(book[n].1, at) then (if i == n then n + 1 else i)
      else if i == n || book[n].1.output > book[i].1.output then n
      else i
  }

  function Select(round: Round, book: Sealed): Option<Award> {
    var a := round.announcement;
    var i := Best(book, a.closesAt);
    if i == |book| || book[i].1.output <= round.reserve then None
    else Some(Award(a.auction, a.intent, book[i].1.solver, book[i].1.output, a.closesAt + a.exclusiveWindowMs))
  }

  // Closing.

  /** The pending round with the earliest close by `limit`, the first pending among equals; the length if none is due. */
  function Due(pending: seq<Round>, limit: int): (i: nat)
    ensures i <= |pending|
    ensures i < |pending| ==> pending[i].announcement.closesAt <= limit
    ensures forall j :: 0 <= j < |pending| && pending[j].announcement.closesAt <= limit ==>
                          i < |pending| && pending[i].announcement.closesAt <= pending[j].announcement.closesAt
    ensures forall j :: 0 <= j < i < |pending| && pending[j].announcement.closesAt <= limit ==>
                          pending[i].announcement.closesAt < pending[j].announcement.closesAt
  {
    if pending == [] then 0 else
      var n := |pending| - 1;
      var i := Due(pending[..n], limit);
      if pending[n].announcement.closesAt > limit then (if i == n then n + 1 else i)
      else if i == n || pending[n].announcement.closesAt < pending[i].announcement.closesAt then n
      else i
  }

  function Later(a: int, b: int): int {
    if a > b then a else b
  }

  function Closed(h: House, i: nat): House
    requires i < |h.pending|
  {
    var round := h.pending[i];
    var a := round.announcement;
    var book := BookOf(h.live, a.auction);
    h.(clock := Later(h.clock, a.closesAt),
       open := h.open - {a.auction},
       live := h.live - {a.auction},
       pending := h.pending[..i] + h.pending[i + 1..],
       closed := h.closed + [Closing(round, book, Select(round, book))])
  }

  /** The next round announced: rivals bid at once, and the clock is put back after them. */
  function Announced(h: House, verifies: Bid -> bool, round: Round): House {
    var clock := Later(h.clock, round.clockAt);
    SubmittedAll(h.(clock := clock, delivered := h.delivered + 1,
                    open := h.open[round.announcement.auction := round.announcement],
                    pending := h.pending + [round]),
                 verifies, round.rivals).(clock := clock)
  }

  // The feed.

  datatype Event = Advance | Submit(bid: Bid) | Tick(ms: nat)

  /** Windows that have elapsed by this moment are closed before anything else is delivered. */
  function Limit(h: House, script: seq<Round>): int {
    if h.delivered < |script| then script[h.delivered].clockAt else MAX_SAFE_INTEGER
  }

  predicate Finished(h: House, script: seq<Round>) {
    h.delivered >= |script| && Due(h.pending, MAX_SAFE_INTEGER) == |h.pending|
  }

  function Step(h: House, verifies: Bid -> bool, script: seq<Round>, e: Event): House {
    match e
    case Advance =>
      var i := Due(h.pending, Limit(h, script));
      if i < |h.pending| then Closed(h, i)
      else if h.delivered < |script| then Announced(h, verifies, script[h.delivered])
      else h
    case Submit(bid) => Submitted(h, verifies, bid)
    case Tick(ms) => h.(clock := h.clock + ms)
  }

  function Run(h: House, verifies: Bid -> bool, script: seq<Round>, events: seq<Event>): House {
    if events == [] then h
    else Step(Run(h, verifies, script, events[..|events| - 1]), verifies, script, events[|events| - 1])
  }

  predicate Init(h: House) {
    && h.delivered == 0 && h.open == map[] && h.live == map[] && h.pending == [] && h.accepted == [] && h.closed == []
  }

  ghost predicate DistinctAuctions(script: seq<Round>) {
    forall i, j :: 0 <= i < j < |script| ==> script[i].announcement.auction != script[j].announcement.auction
  }

  // Every announced round is pending or closed, never both.

  function Rounds(closed: seq<Closing>): seq<Round> {
    seq(|closed|, i requires 0 <= i < |closed| => closed[i].round)
  }

  predicate Accounted(h: House, script: seq<Round>) {
    && h.delivered <= |script|
    && multiset(Rounds(h.closed)) + multiset(h.pending) == multiset(script[..h.delivered])
  }

  lemma SubmittedAllKeeps(h: House, verifies: Bid -> bool, bids: seq<Bid>)
    ensures var t := SubmittedAll(h, verifies, bids);
            t.pending == h.pending && t.closed == h.closed && t.open == h.open && t.delivered == h.delivered
  {
  }

  lemma ClosedAccounts(h: House, i: nat)
    requires i < |h.pending|
    ensures var t := Closed(h, i);
            multiset(Rounds(t.closed)) + multiset(t.pending) == multiset(Rounds(h.closed)) + multiset(h.pending)
  {
    var due := h.pending[i];
    assert h.pending == h.pending[..i] + [due] + h.pending[i + 1..];
    assert Rounds(Closed(h, i).closed) == Rounds(h.closed) + [due];
  }

  lemma AnnouncedAccounts(h: House, verifies: Bid -> bool, round: Round)
    ensures var t := Announced(h, verifies, round);
            t.closed == h.closed && t.pending == h.pending + [round] && t.delivered == h.delivered + 1
    ensures Announced(h, verifies, round).open == h.open[round.announcement.auction := round.announcement]
  {
    SubmittedAllKeeps(h.(clock := Later(h.clock, round.clockAt), delivered := h.delivered + 1,
                         open := h.open[round.announcement.auction := round.announcement],
                         pending := h.pending + [round]), verifies, round.rivals);
  }

  lemma StepAccounts(h: House, verifies: Bid -> bool, script: seq<Round>, e: Event)
    requires Accounted(h, script)
    ensures Accounted(Step(h, verifies, script, e), script)
  {
    if e.Advance? {
      var i := Due(h.pending, Limit(h, script));
      if i < |h.pending| {
        ClosedAccounts(h, i);
      } else if h.delivered < |script| {
        AnnouncedAccounts(h, verifies, script[h.delivered]);
        assert script[..h.delivered + 1] == script[..h.delivered] + [script[h.delivered]];
      }
    }
  }

  lemma {:induction false} RunAccounts(h: House, verifies: Bid -> bool, script: seq<Round>, events: seq<Event>)
    requires Init(h)
    ensures Accounted(Run(h, verifies, script, events), script)
  {
    if events != [] {
      RunAccounts(h, verifies, script, events[..|events| - 1]);
      StepAccounts(Run(h, verifies, script, events[..|events| - 1]), verifies, script, events[|events| - 1]);
    }
  }

  /** A feed read to its end has closed every round of the script, each exactly once. */
  lemma EachRoundClosesOnce(h: House, verifies: Bid -> bool, script: seq<Round>, events: seq<Event>)
    requires Init(h) && forall i :: 0 <= i < |script| ==> script[i].announcement.closesAt <= MAX_SAFE_INTEGER
    requires Finished(Run(h, verifies, script, events), script)
    ensures multiset(Rounds(Run(h, verifies, script, events).closed)) == multiset(script)
  {
    var t := Run(h, verifies, script, events);
    RunAccounts(h, verifies, script, events);
    assert script[..t.delivered] == script;
    PendingScripted(t, script);
  }

  lemma PendingScripted(h: House, script: seq<Round>)
    requires Accounted(h, script)
    ensures forall r :: r in h.pending ==> r in script
  {
    forall r | r in h.pending ensures r in script {
      assert r in multiset(h.pending);
      assert r in multiset(script[..h.delivered]);
    }
  }
}
