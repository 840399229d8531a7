/**
 The startup order of the escrow solver: resumed fills wait for a covering allowance, one
 loop retries the fills' approval, and the feed is read only after a top-up. Every promise
 continuation is a step of its own, so the model interleaves them at least as freely as the
 event loop does.
 */
module Startup {
  import opened Wrappers

  datatype Status = Confirmed | Reverted | NotSent | InDoubt | Cancelled

  /** How an approval call ends: nothing needed sending, a transaction outcome, or an exception. */
  datatype Outcome = NoneSent | Sent(status: Status) | Threw

  predicate Unresolved(last: Option<Status>) {
    last == Some(InDoubt) || last == Some(Cancelled)
  }

  predicate Good(r: Outcome) {
    r.NoneSent? || r == Sent(Confirmed)
  }

  /** One `attempt()`: it may re-read the last approval before it sends one. */
  datatype Attempt = Resolving | Ensuring | Finished(result: Outcome)

  /** A retry loop, awaiting its pending attempt or sleeping before the next. */
  datatype Loop = Absent | Awaiting(pending: Attempt) | Sleeping | Ended

  datatype LoopId = ForWaiting | ForUnsettled

  /** Why a resumed fill stopped waiting. */
  datatype Release = Waiting | ByAllowance | ByLapse

  datatype Fill = Fill(amount: nat, deadline: int, release: Release, sent: bool, settled: bool)

  datatype Feed = AwaitFirst | AwaitSent | AwaitTopUp | Bidding | Fatal

  /**
   `allowance` is the chain's. `stood` is the allowance when the standing promise resolved and
   `topped` the one when the top-up call came back good; both are history.
   */
  datatype State = State(
    now: int, cap: nat, owed: nat, allowance: nat,
    fills: seq<Fill>, stands: bool, last: Option<Status>,
    waitingLoop: Loop, unsettledLoop: Loop,
    first: Option<Outcome>, feed: Feed,
    stood: Option<nat>, topped: Option<nat>)

  datatype Event =
    | Tick(now: int)
    | AllowanceMoves(allowance: nat)
    | Lapse(i: nat)
    | GoOn(i: nat)
    | FillSent(i: nat)
    | FillSettled(i: nat)
    | Resolves(id: LoopId, result: Outcome)
    | Ensures(id: LoopId, result: Outcome)
    | Continues(id: LoopId)
    | Wakes(id: LoopId)
    | FirstArrives
    | AllSent
    | TopUp(result: Outcome)

  function Sum(fills: seq<Fill>): nat {
    if fills == [] then 0 else fills[0].amount + Sum(fills[1..])
  }

  function WaitingCount(fills: seq<Fill>): nat {
    |set i | 0 <= i < |fills| && fills[i].release.Waiting?|
  }

  function UnsettledCount(fills: seq<Fill>): nat {
    |set i | 0 <= i < |fills| && !fills[i].settled|
  }

  function LoopOf(s: State, id: LoopId): Loop {
    match id
    case ForWaiting => s.waitingLoop
    case ForUnsettled => s.unsettledLoop
  }

  function SetLoop(s: State, id: LoopId, loop: Loop): State {
    match id
    case ForWaiting => s.(waitingLoop := loop)
    case ForUnsettled => s.(unsettledLoop := loop)
  }

  function Needed(s: State, id: LoopId): nat {
    match id
    case ForWaiting => WaitingCount(s.fills)
    case ForUnsettled => UnsettledCount(s.fills)
  }

  function BeginAttempt(last: Option<Status>): Attempt {
    if Unresolved(last) then Resolving else Ensuring
  }

  /** `ensure(sufficient)` sends nothing exactly when the allowance covers `cap` or `sufficient`. */
  predicate Covers(s: State, sufficient: nat) {
    s.allowance >= s.cap || s.allowance >= sufficient
  }

  /** What `ensure` leaves on chain when it comes back. */
  function AllowanceAfter(s: State, result: Outcome): nat {
    if result == Sent(Confirmed) then s.cap else s.allowance
  }

  function Finish(s: State, id: LoopId, result: Outcome): State {
    var t := SetLoop(s, id, Awaiting(Finished(result)));
    if t.first.None? then t.(first := Some(result)) else t
  }

  predicate Enabled(s: State, e: Event) {
    match e
    case Tick(now) => now >= s.now
    case AllowanceMoves(_) => true
    case Lapse(i) => i < |s.fills| && s.fills[i].release.Waiting? && s.now >= (s.fills[i].deadline + 60) * 1000
    case GoOn(i) => i < |s.fills| && s.fills[i].release.Waiting? && s.stood.Some?
    case FillSent(i) => i < |s.fills| && !s.fills[i].release.Waiting?
    case FillSettled(i) => i < |s.fills| && !s.fills[i].release.Waiting?
    case Resolves(id, result) => LoopOf(s, id) == Awaiting(Resolving) && !result.NoneSent?
    case Ensures(id, result) => LoopOf(s, id) == Awaiting(Ensuring) && (result.NoneSent? ==> Covers(s, s.owed))
    case Continues(id) => LoopOf(s, id).Awaiting? && LoopOf(s, id).pending.Finished?
    case Wakes(id) => LoopOf(s, id).Sleeping?
    case FirstArrives => s.feed.AwaitFirst? && s.first.Some?
    case AllSent => s.feed.AwaitSent? && forall i :: 0 <= i < |s.fills| ==> s.fills[i].sent
    case TopUp(result) => s.feed.AwaitTopUp? && (result.NoneSent? ==> Covers(s, s.owed + s.cap / 2))
  }

  function StepResolves(s: State, id: LoopId, result: Outcome): State
    requires !result.NoneSent?
  {
    if result.Threw? then Finish(s, id, result)
    else
      var t := s.(last := Some(result.status));
      if Unresolved(t.last) then Finish(t, id, result) else SetLoop(t, id, Awaiting(Ensuring))
  }

  function StepEnsures(s: State, id: LoopId, result: Outcome): State {
    if result.Threw? then Finish(s, id, result)
    else
      var t := s.(last := if result.NoneSent? then None else Some(result.status), allowance := AllowanceAfter(s, result));
      Finish(if Good(result) then t.(stands := true, stood := if t.stood.None? then Some(t.allowance) else t.stood) else t,
             id, result)
  }

  function StepContinues(s: State, id: LoopId): State {
    SetLoop(s, id, if s.stands || Needed(s, id) == 0 then Ended else Sleeping)
  }

  function StepWakes(s: State, id: LoopId): State {
    SetLoop(s, id, if Needed(s, id) == 0 then Ended else Awaiting(BeginAttempt(s.last)))
  }

  function StepTopUp(s: State, result: Outcome): State {
    if Good(result) then
      var allowance := AllowanceAfter(s, result);
      s.(feed := Bidding, allowance := allowance, topped := Some(allowance))
    else if UnsettledCount(s.fills) == 0 then s.(feed := Fatal)
    else s.(feed := Fatal, stands := false, last := if result.Sent? then Some(result.status) else s.last,
            unsettledLoop := Awaiting(Finished(result)))
  }

  /** One step; an event that is not enabled changes nothing. */
  function Step(s: State, e: Event): State {
    if !Enabled(s, e) then s else
      match e
      case Tick(now) => s.(now := now)
      case AllowanceMoves(allowance) => s.(allowance := allowance)
      case Lapse(i) => s.(fills := s.fills[i := s.fills[i].(release := ByLapse)])
      case GoOn(i) => s.(fills := s.fills[i := s.fills[i].(release := ByAllowance)])
      case FillSent(i) => s.(fills := s.fills[i := s.fills[i].(sent := true)])
      case FillSettled(i) => s.(fills := s.fills[i := s.fills[i].(sent := true, settled := true)])
      case Resolves(id, result) => StepResolves(s, id, result)
      case Ensures(id, result) => StepEnsures(s, id, result)
      case Continues(id) => StepContinues(s, id)
      case Wakes(id) => StepWakes(s, id)
      case FirstArrives => s.(feed := if Good(s.first.value) then AwaitSent else Fatal)
      case AllSent => s.(feed := AwaitTopUp)
      case TopUp(result) => StepTopUp(s, result)
  }

  function Run(s: State, events: seq<Event>): State {
    if events == [] then s else Step(Run(s, events[..|events| - 1]), events[|events| - 1])
  }

  /** Before any continuation: every owed fill waits, and the first attempt is under way if any is owed. */
  predicate Init(s: State) {
    && s.owed == Sum(s.fills)
    && (forall i :: 0 <= i < |s.fills| ==> s.fills[i].release.Waiting? && !s.fills[i].sent && !s.fills[i].settled)
    && !s.stands && s.last == None && s.stood == None && s.topped == None && s.feed == AwaitFirst
    && s.unsettledLoop == Absent
    && (if s.fills == [] then s.waitingLoop == Absent && s.first == Some(NoneSent)
        else s.waitingLoop == Awaiting(Ensuring) && s.first == None)
  }

  // The invariant.

  /** An approval call of this loop is under way. */
  predicate InFlight(loop: Loop) {
    loop.Awaiting? && !loop.pending.Finished?
  }

  predicate SendingOnLast(loop: Loop, last: Option<Status>) {
    && (loop == Awaiting(Resolving) ==> Unresolved(last))
    && (loop == Awaiting(Ensuring) ==> !Unresolved(last))
  }

  predicate FillsOk(fills: seq<Fill>, now: int, stood: Option<nat>) {
    forall i :: 0 <= i < |fills| ==>
                  && (fills[i].settled ==> fills[i].sent)
                  && (fills[i].sent ==> !fills[i].release.Waiting?)
                  && (fills[i].release.ByAllowance? ==> stood.Some?)
                  && (fills[i].release.ByLapse? ==> now >= (fills[i].deadline + 60) * 1000)
  }

  predicate AllOut(fills: seq<Fill>) {
    forall i :: 0 <= i < |fills| ==> fills[i].sent
  }

  /** The first loop is done with calls and cannot start another. */
  predicate Spent(loop: Loop) {
    loop.Absent? || loop.Ended? || (loop.Awaiting? && loop.pending.Finished?)
  }

  predicate FeedOk(s: State) {
    && (s.feed.AwaitFirst? || s.feed.AwaitSent? || s.feed.AwaitTopUp? || s.feed.Bidding? ==> s.unsettledLoop == Absent)
    && (s.feed.AwaitSent? || s.feed.AwaitTopUp? || s.feed.Bidding? || !s.unsettledLoop.Absent? ==>
          && s.first.Some? && Good(s.first.value) && Spent(s.waitingLoop))
    && (s.feed.AwaitTopUp? || s.feed.Bidding? || !s.unsettledLoop.Absent? ==> AllOut(s.fills))
    && (s.feed.Bidding? ==> s.topped.Some? && (s.topped.value >= s.cap || s.topped.value >= s.owed + s.cap / 2))
  }

  predicate FirstOk(s: State) {
    && (s.first.None? ==> InFlight(s.waitingLoop) && s.feed.AwaitFirst? && s.last == None && !s.stands && s.stood.None?)
    && (s.first.Some? && Good(s.first.value) ==> s.fills == [] || s.stood.Some?)
    && (s.first.Some? && Good(s.first.value) && s.unsettledLoop.Absent? ==>
          && Spent(s.waitingLoop) && !Unresolved(s.last) && (s.fills == [] || s.stands))
  }

  predicate StoodOk(s: State) {
    && (s.stood.Some? ==> s.stood.value >= s.cap || s.stood.value >= s.owed)
    && (s.stands ==> s.stood.Some?)
    && (s.stood.Some? && !s.stands ==> !s.unsettledLoop.Absent?)
  }

  predicate Inv(s: State) {
    && FillsOk(s.fills, s.now, s.stood) && FeedOk(s) && FirstOk(s) && StoodOk(s)
    && SendingOnLast(s.waitingLoop, s.last) && SendingOnLast(s.unsettledLoop, s.last)
    && (!s.unsettledLoop.Absent? ==> s.fills != [])
  }

  lemma FillStepKeeps(s: State, e: Event)
    requires Inv(s) && (e.Lapse? || e.GoOn? || e.FillSent? || e.FillSettled? || e.Tick? || e.AllowanceMoves?)
    ensures Inv(Step(s, e))
  {
  }

  lemma ResolvesKeeps(s: State, id: LoopId, result: Outcome)
    requires Inv(s) && Enabled(s, Resolves(id, result))
    ensures Inv(Step(s, Resolves(id, result)))
  {
  }

  lemma EnsuresKeeps(s: State, id: LoopId, result: Outcome)
    requires Inv(s) && Enabled(s, Ensures(id, result))
    ensures Inv(Step(s, Ensures(id, result)))
  {
  }

  lemma LoopKeeps(s: State, id: LoopId)
    requires Inv(s)
    ensures Inv(Step(s, Continues(id)))
    ensures Inv(Step(s, Wakes(id)))
  {
  }

  lemma FeedKeeps(s: State, e: Event)
    requires Inv(s) && (e.FirstArrives? || e.AllSent? || e.TopUp?)
    ensures Inv(Step(s, e))
  {
  }

  lemma StepKeeps(s: State, e: Event)
    requires Inv(s)
    ensures Inv(Step(s, e))
  {
    if Enabled(s, e) {
      match e
      case Resolves(id, result) => ResolvesKeeps(s, id, result);
      case Ensures(id, result) => EnsuresKeeps(s, id, result);
      case Continues(id) => LoopKeeps(s, id);
      case Wakes(id) => LoopKeeps(s, id);
      case FirstArrives => FeedKeeps(s, e);
      case AllSent => FeedKeeps(s, e);
      case TopUp(result) => FeedKeeps(s, e);
      case Tick(now) => FillStepKeeps(s, e);
      case AllowanceMoves(allowance) => FillStepKeeps(s, e);
      case Lapse(i) => FillStepKeeps(s, e);
      case GoOn(i) => FillStepKeeps(s, e);
      case FillSent(i) => FillStepKeeps(s, e);
      case FillSettled(i) => FillStepKeeps(s, e);
    }
  }

  lemma {:induction false} RunKeeps(s: State, events: seq<Event>)
    requires Init(s)
    ensures Inv(Run(s, events))
  {
    if events != [] {
      RunKeeps(s, events[..|events| - 1]);
      StepKeeps(Run(s, events[..|events| - 1]), events[|events| - 1]);
    }
  }

  /** What one event makes of a fill. */
  function FillAfter(f: Fill, e: Event, i: nat): Fill {
    if e == Lapse(i) then f.(release := ByLapse)
    else if e == GoOn(i) then f.(release := ByAllowance)
    else if e == FillSent(i) then f.(sent := true)
    else if e == FillSettled(i) then f.(sent := true, settled := true)
    else f
  }

  lemma FillStep(t: State, e: Event, i: nat)
    requires i < |t.fills|
    ensures |Step(t, e).fills| == |t.fills|
    ensures Step(t, e).fills[i] == if Enabled(t, e) then FillAfter(t.fills[i], e, i) else t.fills[i]
  {
    if e.Lapse? || e.GoOn? || e.FillSent? || e.FillSettled? {
    } else if e.Resolves? || e.Ensures? {
    } else {
    }
  }

  /** A step changes neither the cap, nor what is owed, nor any fill's amount or deadline. */
  predicate SameTerms(s: State, t: State) {
    && t.cap == s.cap && t.owed == s.owed && |t.fills| == |s.fills|
    && forall i :: 0 <= i < |s.fills| ==> SameFillTerms(s, t, i)
  }

  predicate SameFillTerms(s: State, t: State, i: nat) {
    && i < |t.fills| == |s.fills|
    && t.fills[i].amount == s.fills[i].amount && t.fills[i].deadline == s.fills[i].deadline
  }

  lemma StepKeepsTerms(s: State, e: Event)
    ensures SameTerms(s, Step(s, e))
  {
    forall i | 0 <= i < |s.fills| ensures SameFillTerms(s, Step(s, e), i) {
      FillStep(s, e, i);
    }
  }

  lemma {:induction false} RunKeepsTerms(s: State, events: seq<Event>)
    ensures SameTerms(s, Run(s, events))
  {
    if events != [] {
      var t := Run(s, events[..|events| - 1]);
      RunKeepsTerms(s, events[..|events| - 1]);
      StepKeepsTerms(t, events[|events| - 1]);
      forall i | 0 <= i < |s.fills| ensures SameFillTerms(s, Run(s, events), i) {
        assert SameFillTerms(s, t, i) && SameFillTerms(t, Run(s, events), i);
      }
    }
  }

  /**
   In every interleaving, a resumed fill that goes on either found its FillAuth deadline a
   minute past, or an approval had come back with the allowance at `cap` or at what all
   resumed fills owe. Nothing is sent for a fill that still waits.
   */
  lemma NoFillReleasedUncovered(s: State, events: seq<Event>, i: nat)
    requires Init(s) && i < |s.fills|
    ensures var t := Run(s, events);
            && |t.fills| == |s.fills|
            && (t.fills[i].sent || t.fills[i].settled ==> !t.fills[i].release.Waiting?)
            && (t.fills[i].release.ByLapse? ==> t.now >= (s.fills[i].deadline + 60) * 1000)
            && (t.fills[i].release.ByAllowance? ==>
                  t.stood.Some? && (t.stood.value >= s.cap || t.stood.value >= Sum(s.fills)))
  {
    RunKeeps(s, events);
    RunKeepsTerms(s, events);
    assert SameFillTerms(s, Run(s, events), i);
  }

  ghost predicate CoveredAlong(s: State, events: seq<Event>) {
    var t := Run(s, events);
    forall i :: 0 <= i < |t.fills| && t.fills[i].release.ByAllowance? ==> t.stood.Some? && t.stood.value >= Sum(s.fills)
  }

  /** What an allowance release covers is all that is owed exactly when the configured cap is that large. */
  lemma CoverNeedsCap(s: State)
    requires Init(s) && s.fills != []
    ensures s.cap >= Sum(s.fills) <==> forall events :: CoveredAlong(s, events)
  {
    if s.cap >= Sum(s.fills) {
      forall events ensures CoveredAlong(s, events) {
        forall i | 0 <= i < |Run(s, events).fills| && Run(s, events).fills[i].release.ByAllowance?
          ensures Run(s, events).stood.Some? && Run(s, events).stood.value >= Sum(s.fills)
        {
          RunKeepsTerms(s, events);
          NoFillReleasedUncovered(s, events, i);
        }
      }
    } else {
      var approve, go := Ensures(ForWaiting, Sent(Confirmed)), GoOn(0);
      var t := Step(s, approve);
      assert [approve][..0] == [] && [approve, go][..1] == [approve];
      assert Run(s, [approve]) == t;
      assert Run(s, [approve, go]) == Step(t, go);
      assert Step(t, go).fills[0].release.ByAllowance? && Step(t, go).stood == Some(s.cap);
      assert !CoveredAlong(s, [approve, go]);
    }
  }

  /** It is the cover of that moment: a fill goes on though others have spent the allowance since. */
  lemma CoverMayBeSpent(s: State) returns (events: seq<Event>)
    requires Init(s) && s.fills != []
    ensures var t := Run(s, events);
            |t.fills| == |s.fills| && t.fills[0].release.ByAllowance? && t.stood == Some(s.cap) && t.allowance == 0
  {
    var approve, spend, go := Ensures(ForWaiting, Sent(Confirmed)), AllowanceMoves(0), GoOn(0);
    events := [approve, spend, go];
    assert events[..0] == [] && events[..1] == [approve] && events[..2] == [approve, spend] && [approve, spend][..1] == [approve];
    var t := Step(s, approve);
    assert Run(s, [approve]) == t;
    var u := Step(t, spend);
    assert Run(s, [approve, spend]) == u;
    assert Run(s, events) == Step(u, go);
  }

  /** At most one approval call is under way, and a new one is never sent while the last is unresolved. */
  lemma NeverStacked(s: State, events: seq<Event>)
    requires Init(s)
    ensures var t := Run(s, events);
            && !(InFlight(t.waitingLoop) && InFlight(t.unsettledLoop))
            && !(t.feed.AwaitTopUp? && (InFlight(t.waitingLoop) || InFlight(t.unsettledLoop)))
            && (t.waitingLoop == Awaiting(Ensuring) || t.unsettledLoop == Awaiting(Ensuring) || t.feed.AwaitTopUp? ==>
                  t.last != Some(InDoubt) && t.last != Some(Cancelled))
  {
    RunKeeps(s, events);
  }

  /**
   Bidding starts only after the fills' approval stood, every resumed fill was sent or settled,
   and the top-up then left at least `cap`, or what is owed plus half of it.
   */
  lemma BiddingAfterBoth(s: State, events: seq<Event>)
    requires Init(s)
    ensures var t := Run(s, events);
            t.feed.Bidding? ==>
              && (s.fills == [] || (t.stood.Some? && t.stands))
              && (forall i :: 0 <= i < |t.fills| ==> t.fills[i].sent)
              && t.topped.Some? && (t.topped.value >= s.cap || t.topped.value >= Sum(s.fills) + s.cap / 2)
  {
    RunKeeps(s, events);
    RunKeepsTerms(s, events);
  }

  // The retries.

  predicate Retrying(loop: Loop) {
    loop.Awaiting? || loop.Sleeping?
  }

  predicate Driven(s: State) {
    && (s.stood.None? && !Retrying(s.waitingLoop) ==> WaitingCount(s.fills) == 0)
    && (s.unsettledLoop.Ended? ==> s.stands || UnsettledCount(s.fills) == 0)
  }

  lemma SubsetCount(a: set<int>, b: set<int>)
    requires a <= b
    ensures |a| <= |b|
  {
    assert b == a + (b - a);
  }

  lemma CountsShrink(f: seq<Fill>, g: seq<Fill>)
    requires |f| == |g|
    requires forall i :: 0 <= i < |f| ==> (g[i].release.Waiting? ==> f[i].release.Waiting?) && (f[i].settled ==> g[i].settled)
    ensures WaitingCount(g) <= WaitingCount(f)
    ensures UnsettledCount(g) <= UnsettledCount(f)
  {
    SubsetCount(set i | 0 <= i < |g| && g[i].release.Waiting?, set i | 0 <= i < |f| && f[i].release.Waiting?);
    SubsetCount(set i | 0 <= i < |g| && !g[i].settled, set i | 0 <= i < |f| && !f[i].settled);
  }

  lemma Counted(f: seq<Fill>, i: nat)
    requires i < |f|
    ensures f[i].release.Waiting? ==> WaitingCount(f) > 0
    ensures !f[i].settled ==> UnsettledCount(f) > 0
  {
    if f[i].release.Waiting? {
      SubsetCount({i}, set j | 0 <= j < |f| && f[j].release.Waiting?);
    }
    if !f[i].settled {
      SubsetCount({i}, set j | 0 <= j < |f| && !f[j].settled);
    }
  }

  lemma FillStepKeepsDriven(s: State, e: Event)
    requires Driven(s) && (e.Lapse? || e.GoOn? || e.FillSent? || e.FillSettled?)
    ensures Driven(Step(s, e))
  {
    CountsShrink(s.fills, Step(s, e).fills);
  }

  lemma LoopKeepsDriven(s: State, e: Event)
    requires Inv(s) && Driven(s) && (e.Resolves? || e.Ensures? || e.Continues? || e.Wakes?)
    ensures Driven(Step(s, e))
  {
  }

  lemma StepKeepsDriven(s: State, e: Event)
    requires Inv(s) && Driven(s)
    ensures Driven(Step(s, e))
  {
    if e.Lapse? || e.GoOn? || e.FillSent? || e.FillSettled? {
      FillStepKeepsDriven(s, e);
    } else if e.Resolves? || e.Ensures? || e.Continues? || e.Wakes? {
      LoopKeepsDriven(s, e);
    }
  }

  lemma {:induction false} RunKeepsDriven(s: State, events: seq<Event>)
    requires Init(s)
    ensures Driven(Run(s, events))
  {
    if events == [] {
      if s.fills == [] {
        assert (set i | 0 <= i < |s.fills| && s.fills[i].release.Waiting?) == {};
      }
    } else {
      RunKeeps(s, events[..|events| - 1]);
      RunKeepsDriven(s, events[..|events| - 1]);
      StepKeepsDriven(Run(s, events[..|events| - 1]), events[|events| - 1]);
    }
  }

  /**
   The approval is retried for as long as a resumed fill waits on it; and once a failed top-up
   has withdrawn it, for as long as a resumed fill is unsettled.
   */
  lemma RetryNeverAbandons(s: State, events: seq<Event>, i: nat)
    requires Init(s) && i < |s.fills|
    ensures var t := Run(s, events);
            && |t.fills| == |s.fills|
            && (t.fills[i].release.Waiting? && t.stood.None? ==> Retrying(t.waitingLoop))
            && (t.stood.Some? && !t.stands && !t.fills[i].settled ==> Retrying(t.unsettledLoop))
  {
    RunKeeps(s, events);
    RunKeepsTerms(s, events);
    RunKeepsDriven(s, events);
    Counted(Run(s, events).fills, i);
  }

  /** An approval of the loop for unsettled fills comes back good. */
  predicate StandsAgain(s: State, e: Event) {
    e.Ensures? && e.id.ForUnsettled? && Enabled(s, e) && Good(e.result)
  }

  predicate NeverStandsAgain(s: State, events: seq<Event>) {
    events == []
    || (NeverStandsAgain(s, events[..|events| - 1])
        && !StandsAgain(Run(s, events[..|events| - 1]), events[|events| - 1]))
  }

  /** Withdrawn, and retried for the fill. */
  predicate Retried(s: State, i: nat) {
    && Inv(s) && i < |s.fills| && !s.stands && !s.first.None?
    && (!s.fills[i].settled ==> Retrying(s.unsettledLoop)) && !s.unsettledLoop.Absent?
    && s.feed.Fatal? && Good(s.first.value) && Spent(s.waitingLoop)
  }

  lemma StepKeepsRetried(s: State, e: Event, i: nat)
    requires Retried(s, i) && !StandsAgain(s, e)
    ensures Retried(Step(s, e), i) && (s.fills[i].settled ==> Step(s, e).fills[i].settled)
  {
    StepKeeps(s, e);
    StepKeepsTerms(s, e);
    Counted(s.fills, i);
    if Enabled(s, e) && e.Wakes? && e.id.ForUnsettled? {
      assert s.fills[i].settled || UnsettledCount(s.fills) > 0;
    }
  }

  lemma {:induction false} RunKeepsRetried(s: State, events: seq<Event>, i: nat)
    requires Retried(s, i) && NeverStandsAgain(s, events)
    ensures Retried(Run(s, events), i)
  {
    if events != [] {
      RunKeepsRetried(s, events[..|events| - 1], i);
      StepKeepsRetried(Run(s, events[..|events| - 1]), events[|events| - 1], i);
    }
  }

  /**
   A failed top-up is never left at that: from the moment one comes back not good with a resumed fill
   unsettled, the approval is withdrawn and retried as long as that fill is unsettled, until one of
   these retries comes back good; and the feed is over.
   */
  lemma FailedTopUpIsRetried(s: State, events: seq<Event>, result: Outcome, later: seq<Event>, i: nat)
    requires Init(s) && i < |s.fills| && |Run(s, events).fills| == |s.fills| && !Run(s, events).fills[i].settled
    requires Enabled(Run(s, events), TopUp(result)) && !Good(result)
    requires NeverStandsAgain(Step(Run(s, events), TopUp(result)), later)
    ensures var t := Run(Step(Run(s, events), TopUp(result)), later);
            && |t.fills| == |s.fills| && t.feed.Fatal? && !t.stands
            && (!t.fills[i].settled ==> Retrying(t.unsettledLoop))
  {
    RunKeeps(s, events);
    var t := Run(s, events);
    Counted(t.fills, i);
    StepKeeps(t, TopUp(result));
    RunKeepsRetried(Step(t, TopUp(result)), later, i);
    RunKeepsTerms(Step(t, TopUp(result)), later);
  }

  /** Once the approval stands, and while no fill waits for one, no approval is under way or to come from a retry. */
  predicate Quiet(s: State) {
    s.stands ==> !s.waitingLoop.Sleeping? && !s.unsettledLoop.Sleeping? && !InFlight(s.waitingLoop) && !InFlight(s.unsettledLoop)
  }

  lemma StepKeepsQuiet(s: State, e: Event)
    requires Inv(s) && Quiet(s)
    ensures Quiet(Step(s, e))
  {
  }

  lemma {:induction false} RunKeepsQuiet(s: State, events: seq<Event>)
    requires Init(s)
    ensures Quiet(Run(s, events))
  {
    if events != [] {
      RunKeeps(s, events[..|events| - 1]);
      RunKeepsQuiet(s, events[..|events| - 1]);
      StepKeepsQuiet(Run(s, events[..|events| - 1]), events[|events| - 1]);
    }
  }

  /**
   Retries go on only while they are needed: none once the approval stands, and a loop that wakes sends
   another exactly when a fill it is for still waits, or is still unsettled.
   */
  lemma RetriesOnlyWhileNeeded(s: State, events: seq<Event>, id: LoopId)
    requires Init(s)
    ensures var t := Run(s, events);
            && (t.stands ==> !InFlight(t.waitingLoop) && !InFlight(t.unsettledLoop) && !LoopOf(t, id).Sleeping?)
            && (LoopOf(t, id).Sleeping? ==>
                  (InFlight(LoopOf(Step(t, Wakes(id)), id)) <==>
                   exists i :: 0 <= i < |t.fills| && (if id.ForWaiting? then t.fills[i].release.Waiting? else !t.fills[i].settled)))
  {
    RunKeepsQuiet(s, events);
    var t := Run(s, events);
    Needs(t, id);
  }

  lemma Needs(s: State, id: LoopId)
    ensures Needed(s, id) > 0 <==>
            exists i :: 0 <= i < |s.fills| && (if id.ForWaiting? then s.fills[i].release.Waiting? else !s.fills[i].settled)
  {
    var waiting, unsettled := set i | 0 <= i < |s.fills| && s.fills[i].release.Waiting?, set i | 0 <= i < |s.fills| && !s.fills[i].settled;
    if i :| 0 <= i < |s.fills| && (if id.ForWaiting? then s.fills[i].release.Waiting? else !s.fills[i].settled) {
      Counted(s.fills, i);
    } else {
      assert id.ForWaiting? ==> waiting == {};
      assert id.ForUnsettled? ==> unsettled == {};
    }
  }

  /** The first attempt's outcome is the one the feed awaits, whatever the retries bring. */
  lemma FirstIsFirst(s: State, e: Event)
    requires s.first.Some?
    ensures Step(s, e).first == s.first
  {
  }

  // What each step does.

  /** The outcome the next attempt goes by, from the calls alone: that of the last approval that came back with one. */
  function LastOutcome(s: State, events: seq<Event>): Option<Status> {
    if events == [] then None else
      var t, prior := Run(s, events[..|events| - 1]), LastOutcome(s, events[..|events| - 1]);
      if !Enabled(t, events[|events| - 1]) then prior else
        match events[|events| - 1]
        case Resolves(_, Sent(status)) => Some(status)
        case Ensures(_, NoneSent) => None
        case Ensures(_, Sent(status)) => Some(status)
        case TopUp(Sent(status)) =>
          if status != Confirmed && exists i :: 0 <= i < |t.fills| && !t.fills[i].settled then Some(status) else prior
        case _ => prior
  }

  lemma LastStep(t: State, e: Event)
    requires Enabled(t, e)
    ensures Step(t, e).last == (match e
      case Resolves(_, result) => if result.Sent? then Some(result.status) else t.last
      case Ensures(_, result) => if result.Threw? then t.last else if result.NoneSent? then None else Some(result.status)
      case TopUp(result) => if result.Sent? && result.status != Confirmed && UnsettledCount(t.fills) > 0 then Some(result.status) else t.last
      case _ => t.last)
  {
  }

  lemma {:induction false} LastIsLastOutcome(s: State, events: seq<Event>)
    requires Init(s)
    ensures Run(s, events).last == LastOutcome(s, events)
  {
    if events != [] {
      var t, e := Run(s, events[..|events| - 1]), events[|events| - 1];
      LastIsLastOutcome(s, events[..|events| - 1]);
      Needs(t, ForUnsettled);
      if Enabled(t, e) {
        LastStep(t, e);
      }
    }
  }

  lemma RunTwo(s: State, d: Event, e: Event)
    ensures Run(s, [d, e]) == Step(Step(s, d), e)
  {
    assert [d, e][..1] == [d] && [d][..0] == [];
    assert Run(s, [d]) == Step(Run(s, []), d);
  }

  /**
   An attempt that has come back ends its loop once the approval stands or no fill needs it; otherwise
   the loop sleeps and then makes another, which re-reads the last approval exactly when that one came
   back in doubt or cancelled.
   */
  lemma RetryRound(s: State, events: seq<Event>, id: LoopId)
    requires Init(s) && LoopOf(Run(s, events), id).Awaiting? && LoopOf(Run(s, events), id).pending.Finished?
    ensures var t := Run(s, events);
            var needed := exists i :: 0 <= i < |t.fills| && (if id.ForWaiting? then t.fills[i].release.Waiting? else !t.fills[i].settled);
            if t.stands || !needed then LoopOf(Step(t, Continues(id)), id).Ended?
            else
              && LoopOf(Step(t, Continues(id)), id).Sleeping?
              && LoopOf(Run(t, [Continues(id), Wakes(id)]), id)
                 == Awaiting(if LastOutcome(s, events) in {Some(InDoubt), Some(Cancelled)} then Resolving else Ensuring)
  {
    LastIsLastOutcome(s, events);
    var t := Run(s, events);
    Needs(t, id);
    RunTwo(t, Continues(id), Wakes(id));
  }

  /** Re-reading the last approval is followed by a new one exactly when that one has a final outcome by now. */
  lemma ResolvedFirst(s: State, events: seq<Event>, id: LoopId, result: Outcome)
    requires Init(s) && LoopOf(Run(s, events), id) == Awaiting(Resolving) && !result.NoneSent?
    ensures LoopOf(Run(s, events + [Resolves(id, result)]), id)
            == Awaiting(if result.Sent? && result.status != InDoubt && result.status != Cancelled then Ensuring else Finished(result))
  {
    assert (events + [Resolves(id, result)])[..|events|] == events;
  }

  /**
   An approval call comes back without sending exactly when the allowance covers the cap or all that is
   owed; the approval stands from then on exactly when it did so or was confirmed; and only a confirmed
   one sets the allowance, to the cap.
   */
  lemma ApprovalStands(s: State, events: seq<Event>, id: LoopId, result: Outcome)
    requires Init(s) && LoopOf(Run(s, events), id) == Awaiting(Ensuring)
    ensures var t, u := Run(s, events), Run(s, events + [Ensures(id, result)]);
            var comesBack := result.NoneSent? ==> t.allowance >= s.cap || t.allowance >= Sum(s.fills);
            if !comesBack then u == t else
              && LoopOf(u, id) == Awaiting(Finished(result))
              && u.stands == (result in {NoneSent, Sent(Confirmed)})
              && u.allowance == (if result == Sent(Confirmed) then s.cap else t.allowance)
              && u.first == (if t.first.None? then Some(result) else t.first)
              && u.stood == (if t.stood.None? && u.stands then Some(u.allowance) else t.stood)
  {
    assert (events + [Ensures(id, result)])[..|events|] == events;
    RunKeeps(s, events);
    RunKeepsTerms(s, events);
    RunKeepsQuiet(s, events);
  }

  /**
   The top-up comes back without sending exactly when the allowance covers the cap, or what is owed and
   half the cap; then, or confirmed, bidding starts; otherwise it never does, and with every fill settled
   nothing is retried.
   */
  lemma TopUpDecides(s: State, events: seq<Event>, result: Outcome)
    requires Init(s) && Run(s, events).feed.AwaitTopUp?
    ensures var t, u := Run(s, events), Run(s, events + [TopUp(result)]);
            var comesBack := result.NoneSent? ==> t.allowance >= s.cap || t.allowance >= Sum(s.fills) + s.cap / 2;
            if !comesBack then u == t else
              && u.feed == (if result in {NoneSent, Sent(Confirmed)} then Bidding else Fatal)
              && u.allowance == (if result == Sent(Confirmed) then s.cap else t.allowance)
              && ((forall i :: 0 <= i < |t.fills| ==> t.fills[i].settled) ==> u.unsettledLoop.Absent?)
  {
    assert (events + [TopUp(result)])[..|events|] == events;
    RunKeeps(s, events);
    RunKeepsTerms(s, events);
    Needs(Run(s, events), ForUnsettled);
  }

  /** Only a confirmed approval or top-up, or others on the chain, change the allowance. */
  lemma AllowanceChanges(s: State, e: Event)
    requires Step(s, e).allowance != s.allowance
    ensures Step(s, e).allowance == if e.AllowanceMoves? then e.allowance else s.cap
    ensures e.AllowanceMoves? || (e.Ensures? && e.result == Sent(Confirmed)) || (e.TopUp? && e.result == Sent(Confirmed))
  {
  }

  lemma {:induction false} SumAdds(f: seq<Fill>, g: seq<Fill>)
    ensures Sum(f + g) == Sum(f) + Sum(g)
    ensures |f| == 1 ==> Sum(f) == f[0].amount
  {
    if f == [] {
      assert f + g == g;
    } else {
      SumAdds(f[1..], g);
      assert (f + g)[1..] == f[1..] + g;
    }
  }

  /** The first approval coming back not good ends the feed for good, whatever comes later. */
  lemma {:induction false} FailedFirstIsFatal(s: State, later: seq<Event>)
    requires s.feed.AwaitFirst? && s.first.Some? && !Good(s.first.value)
    ensures Run(Step(s, FirstArrives), later).feed.Fatal?
  {
    if later != [] {
      FailedFirstIsFatal(s, later[..|later| - 1]);
      FatalStays(Run(Step(s, FirstArrives), later[..|later| - 1]), later[|later| - 1]);
    }
  }

  lemma FatalStays(s: State, e: Event)
    requires s.feed.Fatal?
    ensures Step(s, e).feed.Fatal?
  {
  }

  /** The events of a run that took effect for fill i. */
  ghost predicate Took(s: State, events: seq<Event>, k: nat, e: Event) {
    k < |events| && events[k] == e && Enabled(Run(s, events[..k]), e)
  }

  lemma TookLonger(s: State, events: seq<Event>, k: nat, e: Event)
    requires events != [] && k < |events| - 1
    ensures Took(s, events[..|events| - 1], k, e) <==> Took(s, events, k, e)
  {
    assert events[..|events| - 1][..k] == events[..k];
  }

  ghost predicate Happened(s: State, events: seq<Event>, e: Event) {
    exists k: nat :: Took(s, events, k, e)
  }

  lemma HappenedBy(s: State, events: seq<Event>, e: Event)
    requires events != []
    ensures Happened(s, events, e) <==>
            Happened(s, events[..|events| - 1], e)
            || (events[|events| - 1] == e && Enabled(Run(s, events[..|events| - 1]), e))
  {
    var front := events[..|events| - 1];
    if k: nat :| Took(s, events, k, e) {
      if k < |front| {
        TookLonger(s, events, k, e);
      }
    }
    if k: nat :| Took(s, front, k, e) {
      TookLonger(s, events, k, e);
    }
    if events[|events| - 1] == e && Enabled(Run(s, front), e) {
      assert Took(s, events, |front|, e);
    }
  }

  /** What a run says of a fill is what happened to it: nothing is taken for sent, settled or lapsed that was not. */
  lemma {:induction false} FillIsItsHistory(s: State, events: seq<Event>, i: nat)
    requires Init(s) && i < |s.fills|
    ensures |Run(s, events).fills| == |s.fills|
    ensures var f := Run(s, events).fills[i];
            && (f.settled <==> Happened(s, events, FillSettled(i)))
            && (f.sent <==> Happened(s, events, FillSent(i)) || Happened(s, events, FillSettled(i)))
            && (f.release.ByLapse? <==> Happened(s, events, Lapse(i)))
            && (f.release.ByAllowance? <==> Happened(s, events, GoOn(i)))
  {
    if events != [] {
      var front, e := events[..|events| - 1], events[|events| - 1];
      FillIsItsHistory(s, front, i);
      HappenedBy(s, events, FillSettled(i));
      HappenedBy(s, events, FillSent(i));
      HappenedBy(s, events, Lapse(i));
      HappenedBy(s, events, GoOn(i));
      FillStep(Run(s, front), e, i);
      assert Enabled(Run(s, front), e) && (e == Lapse(i) || e == GoOn(i)) ==> Run(s, front).fills[i].release.Waiting?;
    }
  }

  /**
   A fill that waits can stop waiting at once exactly when an approval has stood or its deadline is a
   minute past.
   */
  lemma StopsWaitingExactly(s: State, events: seq<Event>, i: nat)
    requires Init(s) && i < |s.fills| && |Run(s, events).fills| == |s.fills| && Run(s, events).fills[i].release.Waiting?
    ensures var t := Run(s, events);
            (exists e :: |Step(t, e).fills| == |s.fills| && !Step(t, e).fills[i].release.Waiting?)
            <==> t.stood.Some? || t.now >= s.fills[i].deadline * 1000 + 60_000
  {
    var t := Run(s, events);
    RunKeepsTerms(s, events);
    assert SameFillTerms(s, t, i);
    if t.stood.Some? {
      assert !Step(t, GoOn(i)).fills[i].release.Waiting?;
    } else if t.now >= s.fills[i].deadline * 1000 + 60_000 {
      assert !Step(t, Lapse(i)).fills[i].release.Waiting?;
    } else {
      forall e ensures |Step(t, e).fills| == |s.fills| && Step(t, e).fills[i].release.Waiting? {
        WaitsOn(t, e, i);
      }
    }
  }

  lemma WaitsOn(t: State, e: Event, i: nat)
    requires i < |t.fills| && t.fills[i].release.Waiting?
    requires !(e == GoOn(i) && t.stood.Some?) && !(e == Lapse(i) && t.now >= (t.fills[i].deadline + 60) * 1000)
    ensures |Step(t, e).fills| == |t.fills| && Step(t, e).fills[i].release.Waiting?
  {
    FillStep(t, e, i);
  }

  lemma RunPlus(s: State, events: seq<Event>, later: seq<Event>)
    ensures Run(Run(s, events), later) == Run(s, events + later)
  {
    if later == [] {
      assert events + later == events;
    } else {
      RunPlus(s, events, later[..|later| - 1]);
      assert (events + later)[..|events + later| - 1] == events + later[..|later| - 1];
    }
  }

  /** No resumed fill is ever stuck: from every state of every run it can be followed to its end. */
  lemma EveryFillCanSettle(s: State, events: seq<Event>, i: nat) returns (later: seq<Event>)
    requires Init(s) && i < |s.fills|
    ensures var t := Run(s, events + later); |t.fills| == |s.fills| && t.fills[i].settled
  {
    var t := Run(s, events);
    RunKeepsTerms(s, events);
    var at := (t.fills[i].deadline + 60) * 1000;
    var u := Step(Step(t, Tick(if t.now >= at then t.now else at)), Lapse(i));
    assert !u.fills[i].release.Waiting?;
    later := [Tick(if t.now >= at then t.now else at), Lapse(i)] + [FillSettled(i)];
    RunTwo(t, later[0], later[1]);
    assert later[..2] == [later[0], later[1]];
    RunPlus(s, events, later);
  }

  predicate SentUpTo(s: State, n: nat) {
    forall i :: 0 <= i < n && i < |s.fills| ==> s.fills[i].sent
  }

  /** Once an approval has stood, every fill can go on and send. */
  lemma {:induction false} AllCanSend(s: State, n: nat) returns (later: seq<Event>)
    requires s.stood.Some? && n <= |s.fills|
    ensures var t := Run(s, later);
            && |t.fills| == |s.fills| && SentUpTo(t, n) && t.stood == s.stood && t.feed == s.feed && t.first == s.first
  {
    if n == 0 {
      later := [];
    } else {
      var prior := AllCanSend(s, n - 1);
      var t := Run(s, prior);
      later := prior + [GoOn(n - 1), FillSent(n - 1)];
      RunPlus(s, prior, [GoOn(n - 1), FillSent(n - 1)]);
      RunTwo(t, GoOn(n - 1), FillSent(n - 1));
    }
  }

  /** Bidding is still within reach at any moment of any run, unless the first approval or the top-up failed. */
  lemma CanStillBid(s: State, events: seq<Event>) returns (later: seq<Event>)
    requires Init(s)
    requires var t := Run(s, events); !t.feed.Fatal? && (t.first.Some? ==> Good(t.first.value))
    ensures Run(s, events + later).feed.Bidding?
  {
    RunKeeps(s, events);
    later := CanBidFrom(Run(s, events));
    RunPlus(s, events, later);
  }

  lemma CanBidFrom(t: State) returns (later: seq<Event>)
    requires Inv(t) && !t.feed.Fatal? && (t.first.Some? ==> Good(t.first.value))
    ensures Run(t, later).feed.Bidding?
  {
    if t.first.None? {
      var approve := FirstCanStand(t);
      var rest := CanSendAndBid(Run(t, approve));
      RunPlus(t, approve, rest);
      later := approve + rest;
    } else {
      later := CanSendAndBid(t);
    }
  }

  lemma CanSendAndBid(t: State) returns (later: seq<Event>)
    requires Inv(t) && !t.feed.Fatal? && t.first.Some? && Good(t.first.value)
    ensures Run(t, later).feed.Bidding?
  {
    var sends: seq<Event> := [];
    if t.fills != [] {
      sends := AllCanSend(t, |t.fills|);
    }
    var bid := CanBid(Run(t, sends));
    RunPlus(t, sends, bid);
    later := sends + bid;
  }

  lemma CanBid(s: State) returns (later: seq<Event>)
    requires AllOut(s.fills) && !s.feed.Fatal? && s.first.Some? && Good(s.first.value)
    ensures Run(s, later).feed.Bidding?
  {
    var t := Step(Step(s, FirstArrives), AllSent);
    assert t.feed.AwaitTopUp? || t.feed.Bidding?;
    later := [FirstArrives, AllSent] + [TopUp(Sent(Confirmed))];
    RunTwo(s, FirstArrives, AllSent);
    assert later[..2] == [FirstArrives, AllSent];
  }

  lemma FirstCanStand(t: State) returns (a: seq<Event>)
    requires Inv(t) && t.first.None?
    ensures var u := Run(t, a); Inv(u) && u.first == Some(Sent(Confirmed)) && u.feed == t.feed && u.stood.Some?
  {
    StepKeeps(t, Ensures(ForWaiting, Sent(Confirmed)));
    a := [Ensures(ForWaiting, Sent(Confirmed))];
    assert a[..0] == [];
    assert Run(t, a) == Step(Run(t, []), a[0]);
  }
}
