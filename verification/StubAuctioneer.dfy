/** The stub auctioneer itself: maps, clock and pending list changed in place. */
module StubAuctioneer {
  import opened OrderedMap
  import opened Auction
  import opened Wrappers

  class StubAuctioneer {
    var clock: int
    var delivered: nat
    var open: map<Id, Announcement>
    var live: map<Id, Sealed>
    var pending: seq<Round>
    const verifies: Bid -> bool

    /** Every bid taken in and every window closed, in order. */
    ghost var accepted: seq<Receipt>
    ghost var closed: seq<Closing>

    ghost function State(): House
      reads this
    {
      House(clock, delivered, open, live, pending, accepted, closed)
    }

    constructor (now: int, verification: Bid -> bool)
      ensures Init(State()) && clock == now && verifies == verification
    {
      clock, delivered, open, live, pending, verifies := now, 0, map[], map[], [], verification;
      accepted, closed := [], [];
    }

    /** The acceptance checks in their order; a resubmission replaces that solver's bid only. */
    method SubmitBid(bid: Bid) returns (taken: bool)
      modifies this
      ensures State() == Submitted(old(State()), verifies, bid)
      ensures taken == (verifies(bid) && Admits(old(State()), bid, clock))
    {
      clock := clock + NET_LATENCY_MS;
      if !verifies(bid) { return false; }
      if bid.auction !in open { return false; }
      var a := open[bid.auction];
      if bid.intent != a.intent { return false; }
      if bid.output < a.minOutput { return false; }
      if clock >= a.closesAt { return false; }
      var book := BookOf(live, bid.auction);
      live := live[bid.auction := Set(book, bid.solver, bid)];
      accepted := accepted + [Receipt(bid, clock)];
      taken := true;
    }

    method SubmitRivals(bids: seq<Bid>)
      modifies this
      ensures State() == SubmittedAll(old(State()), verifies, bids).(clock := old(clock))
    {
      var at := clock;
      assert bids[..0] == [];
      for k := 0 to |bids|
        invariant State() == SubmittedAll(old(State()), verifies, bids[..k])
      {
        assert bids[..k + 1][..k] == bids[..k];
        var _ := SubmitBid(bids[k]);
      }
      assert bids[..|bids|] == bids;
      clock := at;
    }

    /** Selection at the close, over the sealed bids in the order they were entered. */
    method Close(i: nat) returns (award: Option<Award>)
      requires i < |pending|
      modifies this
      ensures State() == Closed(old(State()), i)
      ensures award == Select(old(pending[i]), BookOf(old(live), old(pending[i]).announcement.auction))
    {
      var round := pending[i];
      var a := round.announcement;
      pending := pending[..i] + pending[i + 1..];
      clock := if a.closesAt > clock then a.closesAt else clock;
      open := open - {a.auction};
      var book := BookOf(live, a.auction);
      live := live - {a.auction};
      award := Settle(round, book);
      closed := closed + [Closing(round, book, award)];
    }

    static method Settle(round: Round, book: Sealed) returns (award: Option<Award>)
      ensures award == Select(round, book)
    {
      var a := round.announcement;
      var best: Option<Bid> := None;
      assert book[..0] == [];
      for k := 0 to |book|
        invariant var i := Best(book[..k], a.closesAt);
                  best == if i == k then None else Some(book[i].1)
      {
        assert book[..k + 1][..k] == book[..k];
        var bid := book[k].1;
        if a.closesAt <= bid.validUntilMs {
          if best.None? || bid.output > best.value.output {
            best := Some(bid);
          }
        }
      }
      assert book[..|book|] == book;
      if best.None? || best.value.output <= round.reserve { return None; }
      award := Some(Award(a.auction, a.intent, best.value.solver, best.value.output, a.closesAt + a.exclusiveWindowMs));
    }

    /** One delivery of the feed: the next due window closed, or else the next round announced. */
    method Deliver(script: seq<Round>) returns (award: Option<Award>)
      modifies this
      ensures State() == Step(old(State()), verifies, script, Advance)
    {
      var limit := if delivered < |script| then script[delivered].clockAt else MAX_SAFE_INTEGER;
      var due := EarliestDue(limit);
      if due < |pending| {
        award := Close(due);
        return award;
      }
      award := None;
      if delivered < |script| {
        var round := script[delivered];
        clock := if round.clockAt > clock then round.clockAt else clock;
        open := open[round.announcement.auction := round.announcement];
        pending := pending + [round];
        delivered := delivered + 1;
        SubmitRivals(round.rivals);
      }
    }

    /** The rounds due by `limit`, the earliest close first: the head of a stable sort. */
    method EarliestDue(limit: int) returns (due: nat)
      ensures due == Due(pending, limit)
    {
      due := 0;
      var k := 0;
      while k < |pending|
        invariant k <= |pending| && due == Due(pending[..k], limit)
      {
        assert pending[..k + 1][..k] == pending[..k];
        var closesAt := pending[k].announcement.closesAt;
        if closesAt > limit {
          due := if due == k then k + 1 else due;
        } else if due == k || closesAt < pending[due].announcement.closesAt {
          due := k;
        }
        k := k + 1;
      }
      assert pending[..k] == pending;
    }
  }
}
