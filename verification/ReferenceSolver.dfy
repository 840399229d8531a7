/** The reference solver itself: the books changed in place, entry by entry. */
module ReferenceSolver {
  import opened OrderedMap
  import opened Inventory
  import opened Wrappers

  class ReferenceSolver {
    var inventory: map<HoldKey, int>
    var settled: map<HoldKey, int>
    var tracked: Entries<string, Tracked>
    var clock: int

    function Books(): Book
      reads this
    {
      Book(inventory, settled, tracked)
    }

    ghost predicate Valid()
      reads this
    {
      Conserved(Books())
    }

    constructor (now: int)
      ensures Valid() && Init(State(Books(), clock)) && clock == now
    {
      inventory := map chain | chain in SUPPORTED_CHAINS :: HoldKey(chain, "usdc") := INITIAL_FLOAT;
      settled, tracked, clock := map[], [], now;
      new;
      RunConserves(State(Books(), clock), []);
    }

    /** The only way out of `tracked` but a completed fill. */
    method DropEntry(intentId: string, e: Tracked)
      requires Find(tracked, intentId) < |tracked| && tracked[Find(tracked, intentId)].1 == e
      modifies this`inventory, this`tracked
      ensures Books() == Drop(old(Books()), intentId)
    {
      tracked := Delete(tracked, intentId);
      inventory := inventory[e.holdKey := At(inventory, e.holdKey) + e.held];
    }

    method ReleaseBid(intentId: string)
      requires Valid()
      modifies this`inventory, this`tracked
      ensures Valid() && Books() == Drop(old(Books()), intentId)
    {
      DropConserves(Books(), intentId);
      var i := Find(tracked, intentId);
      if i < |tracked| {
        DropEntry(intentId, tracked[i].1);
      }
    }

    /** The time pass, deleting from the map it walks. */
    method PruneElapsed()
      requires Valid()
      modifies this`inventory, this`tracked
      ensures Valid() && Books() == Expired(old(Books()), clock)
    {
      var i := 0;
      while i < |tracked|
        invariant i <= |tracked| && Valid() && Expired(Books(), clock) == Expired(old(Books()), clock)
        invariant forall t :: t in tracked[..i] ==> clock <= t.1.fillDeadline
        decreases |tracked| - i
      {
        if clock > tracked[i].1.fillDeadline {
          ExpiresFirst(Books(), clock, i);
          DropConserves(Books(), tracked[i].0);
          DropEntry(tracked[i].0, tracked[i].1);
        } else {
          i := i + 1;
        }
      }
      NothingExpires(Books(), clock);
    }

    /** The entry with the soonest deadline, first in insertion order among equals. */
    method Victim() returns (victim: nat)
      requires tracked != []
      ensures victim == Soonest(tracked)
    {
      victim := 0;
      var j := 1;
      while j < |tracked|
        invariant 1 <= j <= |tracked| && victim == Soonest(tracked[..j])
      {
        assert tracked[..j + 1][..j] == tracked[..j];
        if tracked[j].1.fillDeadline < tracked[victim].1.fillDeadline {
          victim := j;
        }
        j := j + 1;
      }
      assert tracked[..j] == tracked;
    }

    /** The time pass over the live bids, then eviction of the soonest deadline while over the bound. */
    method Prune()
      requires Valid()
      modifies this`inventory, this`tracked
      ensures Valid() && Books() == Pruned(old(Books()), clock) && |tracked| <= MAX_TRACKED
    {
      PruneElapsed();
      while |tracked| > MAX_TRACKED
        invariant Valid() && Evicted(Books()) == Pruned(old(Books()), clock)
        decreases |tracked|
      {
        var victim := Victim();
        FindIs(tracked, tracked[victim].0, victim);
        DropConserves(Books(), tracked[victim].0);
        DropEntry(tracked[victim].0, tracked[victim].1);
      }
    }

    /** Replaces the intent's hold by one at `output`, if the float covers it. */
    method Commit(a: Announcement, output: int) returns (covered: bool)
      modifies this`inventory, this`tracked
      ensures (Books(), covered) == Committed(old(Books()), a, output)
    {
      var i := Find(tracked, a.intentId);
      if i < |tracked| {
        DropEntry(a.intentId, tracked[i].1);
      }
      var holdKey := HoldKey(a.toChain, a.toSymbol);
      var available := At(inventory, holdKey);
      if available < output { return false; }
      inventory := inventory[holdKey := available - output];
      tracked := tracked + [(a.intentId, Tracked(a.closesAt + a.exclusiveWindowMs, output, holdKey, output))];
      covered := true;
    }

    /** Prices an announcement and commits the float before it answers. */
    method Quote(a: Announcement) returns (reply: Reply)
      requires Valid()
      modifies this
      ensures Valid() && (Books(), clock - old(clock), reply) == Quoted(old(Books()), old(clock), a)
    {
      QuotedConserves(Books(), clock, a);
      Prune();
      var refusal := Refusal(clock, a);
      if refusal.Some? { return refusal.value; }
      clock := clock + PRICING_MS;
      if a.minOutput.Garbled? { return Threw; }
      var output := Price(a);
      if output < a.minOutput.n { return Pass; }
      var covered := Commit(a, output);
      if !covered { return Pass; }
      if a.minOutput.n == 0 { return Threw; }
      reply := Draft(output, a.closesAt + BID_LIFETIME_MS);
    }

    /** Consumes the award's hold. Refused for an untracked intent, a closed window or an output above the bid. */
    method Fill(award: Award) returns (filled: bool)
      requires Valid()
      modifies this`inventory, this`settled, this`tracked
      ensures Valid() && filled == Fillable(old(Books()), clock, award)
      ensures Books() == Filled(old(Books()), clock, award)
    {
      FilledConserves(Books(), clock, award);
      var i := Find(tracked, award.intentId);
      if i == |tracked| { return false; }
      var e := tracked[i].1;
      if clock >= award.exclusiveUntil { return false; }
      if award.output.Garbled? { return false; }
      var awarded := award.output.n;
      if awarded > e.bidOutput { return false; }
      tracked := Delete(tracked, award.intentId);
      settled := settled[e.holdKey := At(settled, e.holdKey) + awarded];
      var unspent := e.held - awarded;
      if unspent > 0 {
        inventory := inventory[e.holdKey := At(inventory, e.holdKey) + unspent];
      }
      filled := true;
    }
  }

  lemma {:induction false} NothingExpires(b: Book, now: int)
    requires forall t :: t in b.tracked ==> now <= t.1.fillDeadline
    ensures Expired(b, now) == b
    decreases |b.tracked|
  {
    if b.tracked != [] {
      assert b.tracked[0] in b.tracked;
      var rest := b.(tracked := b.tracked[1..]);
      assert forall t :: t in rest.tracked ==> t in b.tracked;
      NothingExpires(rest, now);
    }
  }

  /** Dropping the first expired bid is the first thing the time pass does. */
  lemma ExpiresFirst(b: Book, now: int, i: nat)
    requires Distinct(b.tracked) && i < |b.tracked| && now > b.tracked[i].1.fillDeadline
    requires forall t :: t in b.tracked[..i] ==> now <= t.1.fillDeadline
    ensures Expired(Drop(b, b.tracked[i].0), now) == Expired(b, now)
    ensures Find(b.tracked, b.tracked[i].0) == i && Drop(b, b.tracked[i].0).tracked[..i] == b.tracked[..i]
  {
    FindIs(b.tracked, b.tracked[i].0, i);
    var e := b.tracked[i].1;
    ExpirePast(b.inventory, b.tracked[..i], b.tracked[i..], now);
    ExpirePast(Add(b.inventory, e.holdKey, e.held), b.tracked[..i], b.tracked[i + 1..], now);
    assert b.tracked == b.tracked[..i] + b.tracked[i..] && b.tracked[i..][1..] == b.tracked[i + 1..];
  }

  /** Live bids ahead of the rest stay where they are. */
  lemma {:induction false} ExpirePast(inventory: map<HoldKey, int>, ahead: Entries<string, Tracked>, rest: Entries<string, Tracked>, now: int)
    requires forall t :: t in ahead ==> now <= t.1.fillDeadline
    ensures var (after, kept) := Expire(inventory, rest, now); Expire(inventory, ahead + rest, now) == (after, ahead + kept)
    decreases |ahead|
  {
    var (after, kept) := Expire(inventory, rest, now);
    if ahead == [] {
      assert ahead + rest == rest && ahead + kept == kept;
    } else {
      assert ahead[0] in ahead;
      assert forall t :: t in ahead[1..] ==> t in ahead;
      ExpirePast(inventory, ahead[1..], rest, now);
      assert (ahead + rest)[1..] == ahead[1..] + rest;
      assert [ahead[0]] + (ahead[1..] + kept) == ahead + kept;
    }
  }
}
