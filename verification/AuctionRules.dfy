/** What an award of the stub auctioneer means, for every script and every run of the feed. */
module AuctionRules {
  import opened OrderedMap
  import opened Auction
  import opened Wrappers

  /** The sealed book of an auction as its accepted bids make it: one live bid a solver, the last accepted. */
  function Heard(accepted: seq<Receipt>, auction: Id): Sealed {
    if accepted == [] then [] else
      var rest, last := Heard(accepted[..|accepted| - 1], auction), accepted[|accepted| - 1].bid;
      if last.auction == auction then Set(rest, last.solver, last) else rest
  }

  /** A bid that verified and was taken in before its window closed, for its intent and at or above its floor. */
  predicate Rightful(r: Receipt, verifies: Bid -> bool, a: Announcement) {
    && r.bid.auction == a.auction && verifies(r.bid) && r.bid.intent == a.intent
    && r.bid.output >= a.minOutput && r.at < a.closesAt
  }

  predicate Receivable(r: Receipt, verifies: Bid -> bool, told: seq<Round>) {
    exists k :: 0 <= k < |told| && Rightful(r, verifies, told[k].announcement)
  }

  predicate ReceiptsOk(accepted: seq<Receipt>, verifies: Bid -> bool, told: seq<Round>) {
    forall i :: 0 <= i < |accepted| ==> Receivable(accepted[i], verifies, told)
  }

  predicate Announces(told: seq<Round>, auction: Id, a: Announcement) {
    a.auction == auction && exists k :: 0 <= k < |told| && told[k].announcement == a
  }

  predicate OpenOk(open: map<Id, Announcement>, told: seq<Round>) {
    forall a :: a in open ==> Announces(told, a, open[a])
  }

  predicate PendingOk(pending: seq<Round>, open: map<Id, Announcement>, told: seq<Round>) {
    && (forall i :: 0 <= i < |pending| ==>
          pending[i] in told && pending[i].announcement.auction in open)
    && (forall i, j :: 0 <= i < j < |pending| ==> pending[i].announcement.auction != pending[j].announcement.auction)
  }

  predicate BooksOk(live: map<Id, Sealed>, open: map<Id, Announcement>, accepted: seq<Receipt>) {
    && (forall a :: a in live ==> a in open)
    && (forall a :: a in open ==> BookOf(live, a) == Heard(accepted, a))
  }

  predicate ClosingOk(c: Closing, open: map<Id, Announcement>, accepted: seq<Receipt>, told: seq<Round>) {
    && c.round in told && c.round.announcement.auction !in open
    && c.book == Heard(accepted, c.round.announcement.auction) && c.award == Select(c.round, c.book)
  }

  predicate ClosedOk(closed: seq<Closing>, open: map<Id, Announcement>, accepted: seq<Receipt>, told: seq<Round>) {
    forall i :: 0 <= i < |closed| ==> ClosingOk(closed[i], open, accepted, told)
  }

  ghost predicate Inv(h: House, verifies: Bid -> bool, told: seq<Round>) {
    && OpenOk(h.open, told) && PendingOk(h.pending, h.open, told) && ReceiptsOk(h.accepted, verifies, told)
    && BooksOk(h.live, h.open, h.accepted) && ClosedOk(h.closed, h.open, h.accepted, told)
  }

  lemma HeardSnoc(accepted: seq<Receipt>, r: Receipt, auction: Id)
    ensures Heard(accepted + [r], auction) ==
            if r.bid.auction == auction then Set(Heard(accepted, auction), r.bid.solver, r.bid) else Heard(accepted, auction)
  {
    assert (accepted + [r])[..|accepted|] == accepted;
  }

  lemma SubmittedBooks(live: map<Id, Sealed>, open: map<Id, Announcement>, accepted: seq<Receipt>, r: Receipt)
    requires BooksOk(live, open, accepted) && r.bid.auction in open
    ensures BooksOk(live[r.bid.auction := Set(BookOf(live, r.bid.auction), r.bid.solver, r.bid)], open, accepted + [r])
  {
    forall a | a in open
      ensures Heard(accepted + [r], a) ==
              if r.bid.auction == a then Set(Heard(accepted, a), r.bid.solver, r.bid) else Heard(accepted, a)
    {
      HeardSnoc(accepted, r, a);
    }
  }

  lemma SubmittedClosed(closed: seq<Closing>, open: map<Id, Announcement>, accepted: seq<Receipt>, told: seq<Round>, r: Receipt)
    requires ClosedOk(closed, open, accepted, told) && r.bid.auction in open
    ensures ClosedOk(closed, open, accepted + [r], told)
  {
    forall i | 0 <= i < |closed| ensures ClosingOk(closed[i], open, accepted + [r], told) {
      assert ClosingOk(closed[i], open, accepted, told);
      HeardSnoc(accepted, r, closed[i].round.announcement.auction);
    }
  }

  lemma SubmittedReceipts(accepted: seq<Receipt>, verifies: Bid -> bool, told: seq<Round>, r: Receipt, a: Announcement)
    requires ReceiptsOk(accepted, verifies, told) && Announces(told, r.bid.auction, a) && Rightful(r, verifies, a)
    ensures ReceiptsOk(accepted + [r], verifies, told)
  {
    var k :| 0 <= k < |told| && told[k].announcement == a;
    assert Rightful(r, verifies, told[k].announcement);
    forall i | 0 <= i < |accepted + [r]| ensures Receivable((accepted + [r])[i], verifies, told) {
      assert i < |accepted| ==> Receivable(accepted[i], verifies, told);
    }
  }

  lemma SubmittedKeeps(h: House, verifies: Bid -> bool, told: seq<Round>, bid: Bid)
    requires Inv(h, verifies, told)
    ensures Inv(Submitted(h, verifies, bid), verifies, told)
  {
    var at, t := h.clock + NET_LATENCY_MS, Submitted(h, verifies, bid);
    assert t.open == h.open && t.pending == h.pending && t.closed == h.closed;
    if verifies(bid) && Admits(h, bid, at) {
      var r := Receipt(bid, at);
      assert t.accepted == h.accepted + [r];
      assert t.live == h.live[bid.auction := Set(BookOf(h.live, bid.auction), bid.solver, bid)];
      SubmittedBooks(h.live, h.open, h.accepted, r);
      SubmittedClosed(h.closed, h.open, h.accepted, told, r);
      assert Announces(told, bid.auction, h.open[bid.auction]);
      SubmittedReceipts(h.accepted, verifies, told, r, h.open[bid.auction]);
    } else {
      assert t.accepted == h.accepted && t.live == h.live;
    }
  }

  lemma {:induction false} SubmittedAllKeepsInv(h: House, verifies: Bid -> bool, told: seq<Round>, bids: seq<Bid>)
    requires Inv(h, verifies, told)
    ensures Inv(SubmittedAll(h, verifies, bids), verifies, told)
  {
    if bids != [] {
      SubmittedAllKeepsInv(h, verifies, told, bids[..|bids| - 1]);
      SubmittedKeeps(SubmittedAll(h, verifies, bids[..|bids| - 1]), verifies, told, bids[|bids| - 1]);
    }
  }

  lemma ClosedPending(pending: seq<Round>, open: map<Id, Announcement>, told: seq<Round>, i: nat)
    requires PendingOk(pending, open, told) && i < |pending|
    ensures PendingOk(pending[..i] + pending[i + 1..], open - {pending[i].announcement.auction}, told)
  {
    var t := pending[..i] + pending[i + 1..];
    forall j | 0 <= j < |t| ensures t[j] == pending[if j < i then j else j + 1] {
      RemovedIndex(pending, i, j);
    }
  }

  lemma ClosedKeeps(h: House, verifies: Bid -> bool, told: seq<Round>, i: nat)
    requires Inv(h, verifies, told) && i < |h.pending|
    ensures Inv(Closed(h, i), verifies, told)
  {
    var a := h.pending[i].announcement.auction;
    ClosedPending(h.pending, h.open, told, i);
    forall j | 0 <= j < |h.closed| ensures ClosingOk(h.closed[j], h.open - {a}, h.accepted, told) {
      assert ClosingOk(h.closed[j], h.open, h.accepted, told);
    }
  }

  lemma {:induction false} NothingHeard(accepted: seq<Receipt>, auction: Id)
    requires forall i :: 0 <= i < |accepted| ==> accepted[i].bid.auction != auction
    ensures Heard(accepted, auction) == []
  {
    if accepted != [] {
      NothingHeard(accepted[..|accepted| - 1], auction);
    }
  }

  predicate NewTo(told: seq<Round>, auction: Id) {
    forall k :: 0 <= k < |told| ==> told[k].announcement.auction != auction
  }

  lemma UnheardOf(accepted: seq<Receipt>, verifies: Bid -> bool, told: seq<Round>, auction: Id)
    requires ReceiptsOk(accepted, verifies, told) && NewTo(told, auction)
    ensures Heard(accepted, auction) == []
  {
    forall i | 0 <= i < |accepted| ensures accepted[i].bid.auction != auction {
      assert Receivable(accepted[i], verifies, told);
    }
    NothingHeard(accepted, auction);
  }

  lemma TellReceipts(accepted: seq<Receipt>, verifies: Bid -> bool, told: seq<Round>, round: Round)
    requires ReceiptsOk(accepted, verifies, told)
    ensures ReceiptsOk(accepted, verifies, told + [round])
  {
    forall i | 0 <= i < |accepted| ensures Receivable(accepted[i], verifies, told + [round]) {
      assert Receivable(accepted[i], verifies, told);
      var k :| 0 <= k < |told| && Rightful(accepted[i], verifies, told[k].announcement);
      assert (told + [round])[k] == told[k];
    }
  }

  lemma TellOpen(open: map<Id, Announcement>, told: seq<Round>, round: Round)
    requires OpenOk(open, told)
    ensures OpenOk(open[round.announcement.auction := round.announcement], told + [round])
  {
    var more := told + [round];
    assert more[|told|] == round;
    forall a | a in open ensures Announces(more, a, open[a]) {
      assert Announces(told, a, open[a]);
      var k :| 0 <= k < |told| && told[k].announcement == open[a];
      assert more[k] == told[k];
    }
  }

  lemma TellClosed(closed: seq<Closing>, open: map<Id, Announcement>, accepted: seq<Receipt>, told: seq<Round>, round: Round)
    requires ClosedOk(closed, open, accepted, told) && NewTo(told, round.announcement.auction)
    ensures ClosedOk(closed, open[round.announcement.auction := round.announcement], accepted, told + [round])
  {
    forall i | 0 <= i < |closed|
      ensures ClosingOk(closed[i], open[round.announcement.auction := round.announcement], accepted, told + [round])
    {
      assert ClosingOk(closed[i], open, accepted, told);
      var k :| 0 <= k < |told| && told[k] == closed[i].round;
      assert (told + [round])[k] == closed[i].round;
    }
  }

  lemma TellPending(pending: seq<Round>, open: map<Id, Announcement>, told: seq<Round>, round: Round)
    requires PendingOk(pending, open, told) && NewTo(told, round.announcement.auction)
    ensures PendingOk(pending + [round], open[round.announcement.auction := round.announcement], told + [round])
  {
    forall i | 0 <= i < |pending| ensures pending[i].announcement.auction != round.announcement.auction {
      var k :| 0 <= k < |told| && told[k] == pending[i];
    }
  }

  lemma TellBooks(live: map<Id, Sealed>, open: map<Id, Announcement>, accepted: seq<Receipt>, verifies: Bid -> bool,
                  told: seq<Round>, round: Round)
    requires BooksOk(live, open, accepted) && OpenOk(open, told) && ReceiptsOk(accepted, verifies, told)
    requires NewTo(told, round.announcement.auction)
    ensures BooksOk(live, open[round.announcement.auction := round.announcement], accepted)
  {
    var a := round.announcement.auction;
    UnheardOf(accepted, verifies, told, a);
    assert a in open ==> Announces(told, a, open[a]);
    assert a !in live;
  }

  lemma AnnouncedKeeps(h: House, verifies: Bid -> bool, told: seq<Round>, round: Round)
    requires Inv(h, verifies, told) && NewTo(told, round.announcement.auction)
    ensures Inv(Announced(h, verifies, round), verifies, told + [round])
  {
    var a := round.announcement;
    var clock := Later(h.clock, round.clockAt);
    var next := h.(clock := clock, delivered := h.delivered + 1, open := h.open[a.auction := a], pending := h.pending + [round]);
    TellOpen(h.open, told, round);
    TellPending(h.pending, h.open, told, round);
    TellReceipts(h.accepted, verifies, told, round);
    TellBooks(h.live, h.open, h.accepted, verifies, told, round);
    TellClosed(h.closed, h.open, h.accepted, told, round);
    assert Inv(next, verifies, told + [round]);
    SubmittedAllKeepsInv(next, verifies, told + [round], round.rivals);
  }

  lemma NewRound(script: seq<Round>, k: nat)
    requires DistinctAuctions(script) && k < |script|
    ensures NewTo(script[..k], script[k].announcement.auction) && script[..k + 1] == script[..k] + [script[k]]
  {
  }

  lemma AdvanceKeeps(h: House, verifies: Bid -> bool, script: seq<Round>)
    requires DistinctAuctions(script) && h.delivered <= |script| && Inv(h, verifies, script[..h.delivered])
    ensures var t := Step(h, verifies, script, Advance);
            t.delivered <= |script| && Inv(t, verifies, script[..t.delivered])
  {
    var i := Due(h.pending, Limit(h, script));
    if i < |h.pending| {
      ClosedKeeps(h, verifies, script[..h.delivered], i);
    } else if h.delivered < |script| {
      NewRound(script, h.delivered);
      AnnouncedKeeps(h, verifies, script[..h.delivered], script[h.delivered]);
      AnnouncedAccounts(h, verifies, script[h.delivered]);
    }
  }

  lemma StepKeeps(h: House, verifies: Bid -> bool, script: seq<Round>, e: Event)
    requires DistinctAuctions(script) && h.delivered <= |script| && Inv(h, verifies, script[..h.delivered])
    ensures var t := Step(h, verifies, script, e);
            t.delivered <= |script| && Inv(t, verifies, script[..t.delivered])
  {
    match e
    case Submit(bid) => SubmittedKeeps(h, verifies, script[..h.delivered], bid);
    case Tick(ms) =>
    case Advance => AdvanceKeeps(h, verifies, script);
  }

  lemma {:induction false} RunKeeps(h: House, verifies: Bid -> bool, script: seq<Round>, events: seq<Event>)
    requires Init(h) && DistinctAuctions(script)
    ensures var t := Run(h, verifies, script, events);
            t.delivered <= |script| && Inv(t, verifies, script[..t.delivered])
  {
    if events != [] {
      RunKeeps(h, verifies, script, events[..|events| - 1]);
      StepKeeps(Run(h, verifies, script, events[..|events| - 1]), verifies, script, events[|events| - 1]);
    }
  }

  // The rules.

  lemma {:induction false} HeardReceipts(accepted: seq<Receipt>, auction: Id)
    ensures var book := Heard(accepted, auction);
            && Distinct(book)
            && forall i :: 0 <= i < |book| ==>
                 book[i].1.solver == book[i].0 && exists k :: 0 <= k < |accepted| && accepted[k].bid == book[i].1
  {
    if accepted != [] {
      var n := |accepted| - 1;
      var rest := Heard(accepted[..n], auction);
      HeardReceipts(accepted[..n], auction);
      if accepted[n].bid.auction == auction {
        SetIsUpdate(rest, accepted[n].bid.solver, accepted[n].bid);
      }
      var book := Heard(accepted, auction);
      forall i | 0 <= i < |book|
        ensures book[i].1.solver == book[i].0 && exists k :: 0 <= k < |accepted| && accepted[k].bid == book[i].1
      {
        if i < |rest| && book[i] == rest[i] {
          var k :| 0 <= k < n && accepted[..n][k].bid == rest[i].1;
          assert accepted[k].bid == book[i].1;
        } else {
          assert accepted[n].bid == book[i].1;
        }
      }
    }
  }

  /**
   Each closed round was settled on the last accepted bid of every solver, each of which had
   verified and arrived before the close, for the announced intent, at or above its floor.
   */
  lemma SettledOnRightfulBids(h: House, verifies: Bid -> bool, script: seq<Round>, events: seq<Event>, i: nat, j: nat)
    requires Init(h) && DistinctAuctions(script)
    requires var t := Run(h, verifies, script, events); i < |t.closed| && j < |t.closed[i].book|
    ensures var t := Run(h, verifies, script, events);
            var c := t.closed[i];
            && c.round in script && c.book == Heard(t.accepted, c.round.announcement.auction)
            && c.award == Select(c.round, c.book) && Distinct(c.book) && c.book[j].1.solver == c.book[j].0
            && exists k :: 0 <= k < |t.accepted| && t.accepted[k].bid == c.book[j].1
                           && Rightful(t.accepted[k], verifies, c.round.announcement)
  {
    RunKeeps(h, verifies, script, events);
    var t := Run(h, verifies, script, events);
    var told := script[..t.delivered];
    var c := t.closed[i];
    assert ClosingOk(c, t.open, t.accepted, told);
    HeardReceipts(t.accepted, c.round.announcement.auction);
    var k :| 0 <= k < |t.accepted| && t.accepted[k].bid == c.book[j].1;
    HeardFor(t.accepted, c.round.announcement.auction, j);
    assert Receivable(t.accepted[k], verifies, told);
    var m :| 0 <= m < |told| && Rightful(t.accepted[k], verifies, told[m].announcement);
    var n :| 0 <= n < |told| && told[n] == c.round;
    assert m == n;
  }

  lemma {:induction false} HeardFor(accepted: seq<Receipt>, auction: Id, j: nat)
    requires j < |Heard(accepted, auction)|
    ensures Heard(accepted, auction)[j].1.auction == auction
  {
    if accepted != [] {
      var n := |accepted| - 1;
      var rest := Heard(accepted[..n], auction);
      if j < |rest| {
        HeardFor(accepted[..n], auction, j);
      }
    }
  }

  /**
   The award goes to a standing bid that no standing bid beats, strictly above the venue's
   reserve and entered first among equals; and the reserve wins only when no such bid exists.
   */
  lemma SelectIsBest(round: Round, book: Sealed)
    ensures var at, award := round.announcement.closesAt, Select(round, book);
            && (award.Some? <==> exists i :: 0 <= i < |book| && at <= book[i].1.validUntilMs && book[i].1.output > round.reserve)
            && (award.Some? ==> exists i :: 0 <= i < |book| && Wins(round, book, i) && award.value.solver == book[i].1.solver
                                            && award.value.output == book[i].1.output > round.reserve)
            && (award.Some? ==>
                  && award.value.auction == round.announcement.auction && award.value.intent == round.announcement.intent
                  && award.value.exclusiveUntil == round.announcement.closesAt + round.announcement.exclusiveWindowMs)
  {
    var i := Best(book, round.announcement.closesAt);
    if i < |book| {
      assert Wins(round, book, i);
    }
  }

  predicate Wins(round: Round, book: Sealed, i: nat)
    requires i < |book|
  {
    var at := round.announcement.closesAt;
    && at <= book[i].1.validUntilMs
    && (forall j :: 0 <= j < |book| && at <= book[j].1.validUntilMs ==> book[j].1.output <= book[i].1.output)
    && (forall j :: 0 <= j < i && at <= book[j].1.validUntilMs ==> book[j].1.output < book[i].1.output)
  }

  // What is taken in, and when.

  predicate OpenPending(open: map<Id, Announcement>, pending: seq<Round>) {
    && (forall i :: 0 <= i < |pending| ==> Opens(open, pending[i].announcement))
    && (forall a :: a in open ==> IsPending(pending, a))
  }

  predicate Opens(open: map<Id, Announcement>, a: Announcement) {
    a.auction in open && open[a.auction] == a
  }

  predicate IsPending(pending: seq<Round>, auction: Id) {
    exists i :: 0 <= i < |pending| && pending[i].announcement.auction == auction
  }

  predicate DistinctPending(pending: seq<Round>) {
    forall i, j :: 0 <= i < j < |pending| ==> pending[i].announcement.auction != pending[j].announcement.auction
  }

  lemma StillPending(pending: seq<Round>, i: nat, auction: Id)
    requires i < |pending| && IsPending(pending, auction) && auction != pending[i].announcement.auction
    ensures IsPending(pending[..i] + pending[i + 1..], auction)
  {
    var k :| 0 <= k < |pending| && pending[k].announcement.auction == auction;
    var j := if k < i then k else k - 1;
    RemovedIndex(pending, i, j);
    assert (pending[..i] + pending[i + 1..])[j].announcement.auction == auction;
  }

  lemma StillOpen(open: map<Id, Announcement>, pending: seq<Round>, i: nat, j: nat)
    requires i < |pending| && j < |pending| - 1 && DistinctPending(pending)
    requires forall k :: 0 <= k < |pending| ==> Opens(open, pending[k].announcement)
    ensures Opens(open - {pending[i].announcement.auction}, (pending[..i] + pending[i + 1..])[j].announcement)
  {
    RemovedIndex(pending, i, j);
    var k := if j < i then j else j + 1;
    assert Opens(open, pending[k].announcement);
  }

  lemma ClosedOpenPending(open: map<Id, Announcement>, pending: seq<Round>, i: nat)
    requires i < |pending| && OpenPending(open, pending) && DistinctPending(pending)
    ensures OpenPending(open - {pending[i].announcement.auction}, pending[..i] + pending[i + 1..])
  {
    var rest, left := pending[..i] + pending[i + 1..], open - {pending[i].announcement.auction};
    forall j | 0 <= j < |rest| ensures Opens(left, rest[j].announcement) {
      StillOpen(open, pending, i, j);
    }
    forall a | a in left ensures IsPending(rest, a) {
      StillPending(pending, i, a);
    }
  }

  lemma StepOpenPending(h: House, verifies: Bid -> bool, script: seq<Round>, e: Event)
    requires DistinctAuctions(script) && h.delivered <= |script| && PendingOk(h.pending, h.open, script[..h.delivered])
    requires OpenPending(h.open, h.pending)
    ensures var t := Step(h, verifies, script, e); OpenPending(t.open, t.pending)
  {
    match e
    case Submit(bid) =>
    case Tick(ms) =>
    case Advance =>
      var i := Due(h.pending, Limit(h, script));
      if i < |h.pending| {
        PendingDistinct(h.pending, h.open, script[..h.delivered]);
        ClosedOpenPending(h.open, h.pending, i);
      } else if h.delivered < |script| {
        AnnouncedStaysOpen(h, verifies, script);
      }
  }

  lemma AnnouncedStaysOpen(h: House, verifies: Bid -> bool, script: seq<Round>)
    requires DistinctAuctions(script) && h.delivered < |script| && PendingOk(h.pending, h.open, script[..h.delivered])
    requires OpenPending(h.open, h.pending)
    ensures var t := Announced(h, verifies, script[h.delivered]); OpenPending(t.open, t.pending)
  {
    var round := script[h.delivered];
    NewRound(script, h.delivered);
    AnnouncedAccounts(h, verifies, round);
    AnnouncedOpenPending(h.open, h.pending, script[..h.delivered], round);
  }

  lemma PendingDistinct(pending: seq<Round>, open: map<Id, Announcement>, told: seq<Round>)
    requires PendingOk(pending, open, told)
    ensures DistinctPending(pending)
  {
  }

  lemma AnnouncedOpenPending(open: map<Id, Announcement>, pending: seq<Round>, told: seq<Round>, round: Round)
    requires OpenPending(open, pending) && PendingOk(pending, open, told) && NewTo(told, round.announcement.auction)
    ensures OpenPending(open[round.announcement.auction := round.announcement], pending + [round])
  {
    var more := pending + [round];
    assert more[|pending|] == round;
    forall i | 0 <= i < |pending| ensures pending[i].announcement.auction != round.announcement.auction {
      var k :| 0 <= k < |told| && told[k] == pending[i];
    }
    forall i | 0 <= i < |more| ensures Opens(open[round.announcement.auction := round.announcement], more[i].announcement) {
      assert i < |pending| ==> more[i] == pending[i] && Opens(open, pending[i].announcement);
    }
    forall a | a in open ensures IsPending(more, a) {
      assert IsPending(pending, a);
      var i :| 0 <= i < |pending| && pending[i].announcement.auction == a;
      assert more[i] == pending[i];
    }
  }

  lemma {:induction false} RunOpenPending(h: House, verifies: Bid -> bool, script: seq<Round>, events: seq<Event>)
    requires Init(h) && DistinctAuctions(script)
    ensures OpenPending(Run(h, verifies, script, events).open, Run(h, verifies, script, events).pending)
  {
    if events != [] {
      var front := events[..|events| - 1];
      RunOpenPending(h, verifies, script, front);
      RunKeeps(h, verifies, script, front);
      StepOpenPending(Run(h, verifies, script, front), verifies, script, events[|events| - 1]);
    }
  }

  /** Some round announced and not yet closed would take this bid at this moment. */
  predicate TakenBy(pending: seq<Round>, bid: Bid, at: int) {
    exists i :: 0 <= i < |pending| && Takes(pending[i].announcement, bid, at)
  }

  predicate Takes(a: Announcement, bid: Bid, at: int) {
    bid.auction == a.auction && bid.intent == a.intent && bid.output >= a.minOutput && at < a.closesAt
  }

  /**
   A bid is taken in, 25 milliseconds after it is sent, if and only if it verifies and some window that
   was announced and is not closed takes it; it then replaces that solver's bid and leaves every other
   where it was. A refused one changes no book.
   */
  lemma TakenExactly(h: House, verifies: Bid -> bool, script: seq<Round>, events: seq<Event>, bid: Bid)
    requires Init(h) && DistinctAuctions(script)
    ensures var t := Run(h, verifies, script, events);
            var u := Step(t, verifies, script, Submit(bid));
            var book, after := BookOf(t.live, bid.auction), BookOf(u.live, bid.auction);
            && u.clock == t.clock + 25 && u.pending == t.pending && u.closed == t.closed
            && if verifies(bid) && TakenBy(t.pending, bid, t.clock + 25) then
                 && u.accepted == t.accepted + [Receipt(bid, t.clock + 25)]
                 && |after| == (if Find(book, bid.solver) < |book| then |book| else |book| + 1)
                 && after[Find(book, bid.solver)] == (bid.solver, bid)
                 && (forall k :: 0 <= k < |book| && k != Find(book, bid.solver) ==> after[k] == book[k])
                 && forall a :: a != bid.auction ==> BookOf(u.live, a) == BookOf(t.live, a)
               else u.accepted == t.accepted && u.live == t.live
  {
    RunOpenPending(h, verifies, script, events);
    AdmitsExactly(Run(h, verifies, script, events), bid);
    if verifies(bid) && Admits(Run(h, verifies, script, events), bid, Run(h, verifies, script, events).clock + 25) {
      Replaces(Run(h, verifies, script, events), verifies, bid);
    }
  }

  lemma AdmitsExactly(h: House, bid: Bid)
    requires OpenPending(h.open, h.pending)
    ensures Admits(h, bid, h.clock + 25) <==> TakenBy(h.pending, bid, h.clock + 25)
  {
    var at := h.clock + 25;
    if Admits(h, bid, at) {
      assert IsPending(h.pending, bid.auction);
      var i :| 0 <= i < |h.pending| && h.pending[i].announcement.auction == bid.auction;
      assert Opens(h.open, h.pending[i].announcement);
      assert Takes(h.pending[i].announcement, bid, at);
    }
    if TakenBy(h.pending, bid, at) {
      var i :| 0 <= i < |h.pending| && Takes(h.pending[i].announcement, bid, at);
      assert Opens(h.open, h.pending[i].announcement);
    }
  }

  lemma Replaces(h: House, verifies: Bid -> bool, bid: Bid)
    requires verifies(bid) && Admits(h, bid, h.clock + NET_LATENCY_MS)
    ensures var live := Submitted(h, verifies, bid).live;
            var book, after := BookOf(h.live, bid.auction), BookOf(live, bid.auction);
            && |after| == (if Find(book, bid.solver) < |book| then |book| else |book| + 1)
            && after[Find(book, bid.solver)] == (bid.solver, bid)
            && (forall k :: 0 <= k < |book| && k != Find(book, bid.solver) ==> after[k] == book[k])
            && forall a :: a != bid.auction ==> BookOf(live, a) == BookOf(h.live, a)
  {
  }

  /**
   The feed goes forward in time: it announces a round only when no open window has elapsed by then,
   closes an elapsed one no other closes before, and ends with none open; and its clock is put to that
   moment but never back, whatever the rivals' bids took.
   */
  lemma AdvancesInOrder(h: House, verifies: Bid -> bool, script: seq<Round>)
    ensures var t := Step(h, verifies, script, Advance);
            var next := if h.delivered < |script| then script[h.delivered].clockAt else MAX_SAFE_INTEGER;
            var elapsed := exists i :: 0 <= i < |h.pending| && h.pending[i].announcement.closesAt <= next;
            && t.clock >= h.clock
            && if elapsed then
                 && t.delivered == h.delivered && |t.closed| == |h.closed| + 1 && t.closed[..|h.closed|] == h.closed
                 && var a := t.closed[|h.closed|].round.announcement;
                    && a.closesAt <= next && (t.clock == a.closesAt || t.clock == h.clock > a.closesAt)
                    && forall i :: 0 <= i < |h.pending| ==> a.closesAt <= h.pending[i].announcement.closesAt
               else if h.delivered < |script| then
                 && t.delivered == h.delivered + 1 && t.closed == h.closed && t.pending == h.pending + [script[h.delivered]]
                 && (t.clock == next || t.clock == h.clock > next)
               else t == h
  {
    if h.delivered < |script| {
      AnnouncedAccounts(h, verifies, script[h.delivered]);
    }
  }

  function Submissions(bids: seq<Bid>): seq<Event> {
    seq(|bids|, i requires 0 <= i < |bids| => Submit(bids[i]))
  }

  lemma {:induction false} SubmittedOneByOne(h: House, verifies: Bid -> bool, script: seq<Round>, bids: seq<Bid>)
    ensures SubmittedAll(h, verifies, bids) == Run(h, verifies, script, Submissions(bids))
  {
    if bids != [] {
      SubmittedOneByOne(h, verifies, script, bids[..|bids| - 1]);
      assert Submissions(bids)[..|bids| - 1] == Submissions(bids[..|bids| - 1]);
    }
  }

  /** The house as a round is announced, before any bid for it. */
  function Announcing(h: House, round: Round): House {
    h.(clock := if round.clockAt > h.clock then round.clockAt else h.clock, delivered := h.delivered + 1,
       open := h.open[round.announcement.auction := round.announcement], pending := h.pending + [round])
  }

  lemma AnnouncedRivals(h: House, verifies: Bid -> bool, script: seq<Round>, round: Round)
    ensures Announced(h, verifies, round) ==
            Run(Announcing(h, round), verifies, script, Submissions(round.rivals)).(clock := Announcing(h, round).clock)
  {
    SubmittedOneByOne(Announcing(h, round), verifies, script, round.rivals);
  }

  /** With an announcement each of the round's rivals submits its bid, in order, under the rules of any bid. */
  lemma RivalsBid(h: House, verifies: Bid -> bool, script: seq<Round>)
    requires h.delivered < |script|
    requires forall i :: 0 <= i < |h.pending| ==> h.pending[i].announcement.closesAt > script[h.delivered].clockAt
    ensures var begun := Announcing(h, script[h.delivered]);
            Step(h, verifies, script, Advance) ==
            Run(begun, verifies, script, Submissions(script[h.delivered].rivals)).(clock := begun.clock)
  {
    AnnouncedRivals(h, verifies, script, script[h.delivered]);
  }
}
