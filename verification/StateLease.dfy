/**
 The lease `<state>.lock` as starters and holders race for it, one file-system call a step.
 A lease file exists only whole (it is linked or renamed from a finished temp file), so the
 lock path holds nothing or one lease.
 */
module StateLease {
  import opened Wrappers

  const LEASE_RENEW_MS := 10_000
  const LEASE_STALE_MS := 3 * LEASE_RENEW_MS

  datatype Lease = Lease(token: nat, renewedAt: int)

  datatype Pc =
    | Idle        // not starting: never did, was refused, or has released
    | Refused
    | Link        // about to link the temp file to the lock path
    | Read        // the link met an existing lease; about to read it
    | Rename      // judged `stale`; about to move it aside
    | ReadAside
    | UnlinkAside // what was moved is the lease judged stale
    | PutBack     // it is another one
    | Held
    | Renewing    // checked its lease and wrote a newer one; about to rename it into place
    | Unlinking   // releasing: read its own lease, about to unlink it
    | Lost

  /** `own` is the temp file: the lease to link, or the renewal to rename. */
  datatype Starter = Starter(pc: Pc, token: nat, attempt: nat, own: Lease, stale: Lease, aside: Option<Lease>)

  datatype World = World(now: int, lock: Option<Lease>, starters: seq<Starter>, nextToken: nat)

  /** What starter i does next. `Fails` is a renewal whose write fails. */
  datatype Move = Begin | Advance | Check | Renew | Fails | Release

  datatype Event = Tick(now: int) | Act(i: nat, move: Move)

  function NextAttempt(p: Starter): Starter {
    if p.attempt + 1 < 3 then p.(pc := Link, attempt := p.attempt + 1) else p.(pc := Refused)
  }

  predicate Mine(lock: Option<Lease>, token: nat) {
    lock.Some? && lock.value.token == token
  }

  /** The lock path and the starter after one call of `acquire`, `renew` or `release`. */
  function Advanced(now: int, lock: Option<Lease>, p: Starter): (Option<Lease>, Starter) {
    match p.pc
    case Link =>
      if lock.None? then (Some(p.own), p.(pc := Held)) else (lock, p.(pc := Read))
    case Read =>
      if lock.None? then (lock, NextAttempt(p))
      else if now - lock.value.renewedAt < LEASE_STALE_MS then (lock, p.(pc := Refused))
      else (lock, p.(pc := Rename, stale := lock.value))
    case Rename =>
      if lock.None? then (lock, NextAttempt(p)) else (None, p.(pc := ReadAside, aside := lock))
    case ReadAside =>
      (lock, p.(pc := if p.aside == Some(p.stale) then UnlinkAside else PutBack))
    case UnlinkAside => (lock, NextAttempt(p.(aside := None)))
    case PutBack => (if lock.None? then p.aside else lock, p.(pc := Refused, aside := None))
    case Renewing => (Some(p.own), p.(pc := Held))
    case Unlinking => (None, p.(pc := Idle))
    case _ => (lock, p)
  }

  /** The same for any move; `Begin` takes a new token. */
  function Acted(now: int, nextToken: nat, lock: Option<Lease>, p: Starter, move: Move): (Option<Lease>, Starter) {
    match move
    case Begin =>
      if p.pc in {Idle, Refused} then
        (lock, p.(pc := Link, token := nextToken, attempt := 0, own := Lease(nextToken, now)))
      else (lock, p)
    case Advance => Advanced(now, lock, p)
    case Check => (lock, if p.pc.Held? && !Mine(lock, p.token) then p.(pc := Lost) else p)
    case Renew =>
      (lock,
       if !p.pc.Held? then p
       else if Mine(lock, p.token) then p.(pc := Renewing, own := Lease(p.token, now))
       else p.(pc := Lost))
    case Fails => (lock, if p.pc.Renewing? then p.(pc := Held) else p)
    case Release =>
      (lock, if p.pc in {Held, Lost} then p.(pc := if Mine(lock, p.token) then Unlinking else Idle) else p)
  }

  function Apply(w: World, i: nat, move: Move): World
    requires i < |w.starters|
  {
    var (lock, p) := Acted(w.now, w.nextToken, w.lock, w.starters[i], move);
    World(w.now, lock, w.starters[i := p], w.nextToken + 1)
  }

  /** Still to link or rename its temp file. */
  predicate Publishing(p: Starter) {
    p.pc in {Link, Read, Rename, ReadAside, UnlinkAside, Renewing}
  }

  /** Every lease at the lock path, moved aside, or in a temp file still to be published. */
  predicate InPlay(w: World, l: Lease) {
    || w.lock == Some(l)
    || exists i :: 0 <= i < |w.starters| &&
                   ((Publishing(w.starters[i]) && w.starters[i].own == l) || w.starters[i].aside == Some(l))
  }

  ghost predicate FreshAt(w: World, dead: Lease, now: int) {
    forall l :: InPlay(w, l) && l != dead ==> now - l.renewedAt < LEASE_STALE_MS
  }

  /** The clock only advances, and no lease but the dead holder's ages past the limit. */
  ghost function Step(w: World, dead: Lease, e: Event): World {
    match e
    case Tick(now) => if now >= w.now && FreshAt(w, dead, now) then w.(now := now) else w
    case Act(i, move) => if i < |w.starters| then Apply(w, i, move) else w
  }

  ghost function Run(w: World, dead: Lease, events: seq<Event>): World {
    if events == [] then w else Step(Run(w, dead, events[..|events| - 1]), dead, events[|events| - 1])
  }

  const NOBODY := Starter(Idle, 0, 0, Lease(0, 0), Lease(0, 0), None)

  /** n starters and the lease of a dead holder, whose token is 0. */
  ghost predicate Init(w: World, dead: Lease) {
    && dead.token == 0 && (w.lock == None || w.lock == Some(dead)) && w.nextToken == 1
    && forall i :: 0 <= i < |w.starters| ==> w.starters[i] == NOBODY
  }

  /** Its `acquire` has returned a lock that it has not released, whether or not it found it lost since. */
  predicate Holds(p: Starter) {
    p.pc in {Held, Renewing, Lost}
  }

  predicate Owns(p: Starter) {
    Holds(p) || p.pc.Unlinking?
  }

  // What holds for any number of starters.

  ghost predicate LeaseOk(now: int, next: nat, dead: Lease, l: Lease) {
    l == dead || (0 < l.token < next && now - l.renewedAt < LEASE_STALE_MS)
  }

  ghost predicate LockOk(now: int, next: nat, dead: Lease, lock: Option<Lease>) {
    lock.Some? ==> LeaseOk(now, next, dead, lock.value)
  }

  ghost predicate StarterOk(now: int, next: nat, dead: Lease, p: Starter) {
    && p.token < next
    && (Publishing(p) ==> p.own.token == p.token && LeaseOk(now, next, dead, p.own))
    && (p.pc !in {Idle, Refused} ==> p.token > 0)
    && (p.pc in {Rename, ReadAside, UnlinkAside, PutBack} ==> p.stale == dead)
    && (p.aside.Some? <==> p.pc in {ReadAside, UnlinkAside, PutBack})
    && LockOk(now, next, dead, p.aside)
    && (p.pc.UnlinkAside? ==> p.aside == Some(dead))
    && (p.pc.PutBack? ==> p.aside != Some(dead))
  }

  ghost predicate WorldOk(w: World, dead: Lease) {
    && dead.token == 0
    && LockOk(w.now, w.nextToken, dead, w.lock)
    && (forall i :: 0 <= i < |w.starters| ==> StarterOk(w.now, w.nextToken, dead, w.starters[i]))
    && (forall i, j :: 0 <= i < j < |w.starters| && w.starters[i].token == w.starters[j].token ==> w.starters[i].token == 0)
  }

  lemma ActedOk(now: int, next: nat, dead: Lease, lock: Option<Lease>, p: Starter, move: Move)
    requires dead.token == 0 && next > 0 && LockOk(now, next, dead, lock) && StarterOk(now, next, dead, p)
    ensures var (lock', p') := Acted(now, next, lock, p, move);
            && LockOk(now, next + 1, dead, lock') && StarterOk(now, next + 1, dead, p')
            && (p'.token == p.token || p'.token == next)
  {
  }

  lemma StepKeepsWorld(w: World, dead: Lease, e: Event)
    requires WorldOk(w, dead) && w.nextToken > 0
    ensures WorldOk(Step(w, dead, e), dead)
    ensures |Step(w, dead, e).starters| == |w.starters| && Step(w, dead, e).nextToken > 0
  {
    match e
    case Tick(now) =>
      if now >= w.now && FreshAt(w, dead, now) {
        assert w.lock.Some? ==> InPlay(w, w.lock.value);
        forall i | 0 <= i < |w.starters| ensures StarterOk(now, w.nextToken, dead, w.starters[i]) {
          assert Publishing(w.starters[i]) ==> InPlay(w, w.starters[i].own);
          assert w.starters[i].aside.Some? ==> InPlay(w, w.starters[i].aside.value);
        }
      }
    case Act(i, move) =>
      if i < |w.starters| {
        ActedOk(w.now, w.nextToken, dead, w.lock, w.starters[i], move);
      }
  }

  lemma {:induction false} RunKeepsWorld(w: World, dead: Lease, events: seq<Event>)
    requires Init(w, dead)
    ensures var t := Run(w, dead, events);
            WorldOk(t, dead) && t.nextToken > 0 && |t.starters| == |w.starters|
  {
    if events != [] {
      var prior := events[..|events| - 1];
      RunKeepsWorld(w, dead, prior);
      StepKeepsWorld(Run(w, dead, prior), dead, events[|events| - 1]);
    }
  }

  /** At the lock path or moved aside: where a process can still find it. */
  predicate Kept(w: World, l: Lease) {
    w.lock == Some(l) || exists i :: 0 <= i < |w.starters| && w.starters[i].aside == Some(l)
  }

  /** A call that unlinks or overwrites the lease l without being a takeover that returns normally. */
  predicate Destroys(lock: Option<Lease>, p: Starter, l: Lease) {
    match p.pc
    case PutBack => p.aside == Some(l) && lock.Some? // the link meets EEXIST, and the lease aside is unlinked
    case Renewing => lock == Some(l)                 // its own older lease, or a successor's
    case Unlinking => lock == Some(l)
    case _ => false
  }

  /**
   Whatever the number of starters, a takeover that returns normally destroys only the very
   lease it judged stale: any other lease at the path or aside goes only by a put-back onto a
   path taken meanwhile, by a renewal renamed over it, or by a release.
   */
  lemma TakeoverDestroysOnlyStale(w: World, dead: Lease, events: seq<Event>, e: Event, l: Lease)
    requires Init(w, dead) && l != dead
    requires Kept(Run(w, dead, events), l) && !Kept(Step(Run(w, dead, events), dead, e), l)
    ensures var t := Run(w, dead, events);
            e.Act? && e.i < |t.starters| && e.move.Advance? && Destroys(t.lock, t.starters[e.i], l)
  {
    RunKeepsWorld(w, dead, events);
    var t, u := Run(w, dead, events), Step(Run(w, dead, events), dead, e);
    if e.Act? && e.i < |t.starters| {
      assert StarterOk(t.now, t.nextToken, dead, t.starters[e.i]);
      assert u.starters[e.i].aside != Some(l);
      forall i | 0 <= i < |t.starters| && i != e.i ensures t.starters[i].aside != Some(l) {
        assert u.starters[i] == t.starters[i];
      }
    }
  }

  /**
   A put-back always has a live lease in hand, one never judged stale, and loses it exactly when
   the path has been taken meanwhile by another lease.
   */
  lemma PutBackDestroysExactly(w: World, dead: Lease, events: seq<Event>, i: nat)
    requires Init(w, dead) && i < |Run(w, dead, events).starters| && Run(w, dead, events).starters[i].pc.PutBack?
    ensures var t := Run(w, dead, events);
            var u := Step(t, dead, Act(i, Advance));
            && t.starters[i].aside.Some? && u.starters[i].aside.None?
            && var l := t.starters[i].aside.value;
               && l != dead && t.now - l.renewedAt < LEASE_STALE_MS
               && (u.lock != Some(l) <==> t.lock.Some? && t.lock != Some(l))
  {
    RunKeepsWorld(w, dead, events);
    assert StarterOk(Run(w, dead, events).now, Run(w, dead, events).nextToken, dead, Run(w, dead, events).starters[i]);
  }

  // Two starters.

  /** A starter that owns the lease finds it at the path, or the other has it aside. */
  ghost predicate Secured(lock: Option<Lease>, p: Starter, other: Starter) {
    Owns(p) ==>
      || Mine(lock, p.token)
      || (lock.None? && other.pc in {ReadAside, PutBack} && Mine(other.aside, p.token))
  }

  lemma ActedSecured(now: int, next: nat, dead: Lease, lock: Option<Lease>, p: Starter, other: Starter, move: Move)
    requires dead.token == 0 && next > 0
    requires StarterOk(now, next, dead, p) && StarterOk(now, next, dead, other)
    requires p.token == other.token ==> p.token == 0
    requires Secured(lock, p, other) && Secured(lock, other, p)
    ensures var (lock', p') := Acted(now, next, lock, p, move);
            Secured(lock', p', other) && Secured(lock', other, p')
  {
  }

  ghost predicate PairOk(w: World, dead: Lease) {
    && |w.starters| == 2
    && Secured(w.lock, w.starters[0], w.starters[1]) && Secured(w.lock, w.starters[1], w.starters[0])
  }

  lemma {:induction false} RunKeepsPair(w: World, dead: Lease, events: seq<Event>)
    requires Init(w, dead) && |w.starters| == 2
    ensures PairOk(Run(w, dead, events), dead) && WorldOk(Run(w, dead, events), dead)
  {
    RunKeepsWorld(w, dead, events);
    if events != [] {
      var prior, e := events[..|events| - 1], events[|events| - 1];
      RunKeepsPair(w, dead, prior);
      RunKeepsWorld(w, dead, prior);
      var t := Run(w, dead, prior);
      if e.Act? && e.i < 2 {
        ActedSecured(t.now, t.nextToken, dead, t.lock, t.starters[e.i], t.starters[1 - e.i], e.move);
      }
    }
  }

  /**
   Of two starters racing over a dead holder's lease, at most one holds it at any time; and one
   that was refused leaves the other's lease at the path.
   */
  lemma MutualExclusion(w: World, dead: Lease, events: seq<Event>)
    requires Init(w, dead) && |w.starters| == 2
    ensures var t := Run(w, dead, events);
            |t.starters| == 2 && !(Holds(t.starters[0]) && Holds(t.starters[1]))
    ensures var t := Run(w, dead, events);
            forall i :: 0 <= i < 2 && Holds(t.starters[i]) && t.starters[1 - i].pc in {Idle, Refused} ==>
                          Mine(t.lock, t.starters[i].token)
  {
    RunKeepsPair(w, dead, events);
  }

  /**
   A holder's next check fails exactly while the other starter, having judged the dead lease
   stale before it was replaced, has the holder's lease aside.
   */
  lemma HolderLosesExactlyWhenMovedAside(w: World, dead: Lease, events: seq<Event>, i: nat)
    requires Init(w, dead) && |w.starters| == 2 && i < 2
    requires |Run(w, dead, events).starters| == 2 && Holds(Run(w, dead, events).starters[i])
    ensures var t := Run(w, dead, events);
            var other := t.starters[1 - i];
            !Mine(t.lock, t.starters[i].token) <==>
            t.lock.None? && other.pc in {ReadAside, PutBack} && Mine(other.aside, t.starters[i].token)
  {
    RunKeepsPair(w, dead, events);
  }

  // What a renewal is for. Here the clock is free: live leases may age past the limit.

  function FreeStep(w: World, e: Event): World {
    match e
    case Tick(now) => if now >= w.now then w.(now := now) else w
    case Act(i, move) => if i < |w.starters| then Apply(w, i, move) else w
  }

  function FreeRun(w: World, events: seq<Event>): World {
    if events == [] then w else FreeStep(FreeRun(w, events[..|events| - 1]), events[|events| - 1])
  }

  /** When a starter last wrote a lease, and when it wrote the one it last put at the path; from its calls alone. */
  datatype Record = Record(written: int, published: int)

  /** It starts, or renews and finds the lease its own: either way it writes a lease to its temp file. */
  predicate Writes(lock: Option<Lease>, p: Starter, move: Move) {
    (move.Begin? && p.pc in {Idle, Refused}) || (move.Renew? && p.pc.Held? && Mine(lock, p.token))
  }

  /** Its temp file gets to the path, by a link or by a renewal's rename. */
  predicate Publishes(lock: Option<Lease>, p: Starter, move: Move) {
    move.Advance? && ((p.pc.Link? && lock.None?) || p.pc.Renewing?)
  }

  function Recorded(now: int, lock: Option<Lease>, p: Starter, move: Move, r: Record): Record {
    if Writes(lock, p, move) then r.(written := now)
    else if Publishes(lock, p, move) then r.(published := r.written)
    else r
  }

  function History(w: World, events: seq<Event>): (h: seq<Record>)
    ensures |h| == |w.starters|
  {
    if events == [] then seq(|w.starters|, _ => Record(0, 0)) else
      var t, h, e := FreeRun(w, events[..|events| - 1]), History(w, events[..|events| - 1]), events[|events| - 1];
      if e.Act? && e.i < |h| && e.i < |t.starters| then
        h[e.i := Recorded(t.now, t.lock, t.starters[e.i], e.move, h[e.i])]
      else h
  }

  predicate Leased(next: nat, lock: Option<Lease>) {
    lock.Some? ==> lock.value.token < next
  }

  /** A lease in a temp file carries its starter's token and the time it was written. */
  ghost predicate Dated(next: nat, p: Starter, r: Record) {
    && p.token < next && Leased(next, p.aside)
    && (Publishing(p) ==> p.token > 0 && p.own == Lease(p.token, r.written))
    && (p.pc.PutBack? ==> p.token > 0)
    && (p.aside.Some? <==> p.pc in {ReadAside, UnlinkAside, PutBack})
    && (Owns(p) ==> p.token > 0)
  }

  ghost predicate AllDated(w: World, h: seq<Record>) {
    && |h| == |w.starters| && w.nextToken > 0 && Leased(w.nextToken, w.lock)
    && (forall i :: 0 <= i < |h| ==> Dated(w.nextToken, w.starters[i], h[i]))
    && (forall i, j :: 0 <= i < j < |h| && w.starters[i].token == w.starters[j].token ==> w.starters[i].token == 0)
  }

  lemma ActedDated(now: int, next: nat, lock: Option<Lease>, p: Starter, move: Move, r: Record)
    requires next > 0 && Leased(next, lock) && Dated(next, p, r)
    ensures var (lock', p') := Acted(now, next, lock, p, move);
            && Leased(next + 1, lock') && Dated(next + 1, p', Recorded(now, lock, p, move, r))
            && (p'.token == p.token || p'.token == next)
  {
  }

  lemma {:induction false} RunDated(w: World, dead: Lease, events: seq<Event>)
    requires Init(w, dead)
    ensures AllDated(FreeRun(w, events), History(w, events)) && |FreeRun(w, events).starters| == |w.starters|
  {
    if events != [] {
      var front, e := events[..|events| - 1], events[|events| - 1];
      RunDated(w, dead, front);
      var t := FreeRun(w, front);
      if e.Act? && e.i < |t.starters| {
        ActedDated(t.now, t.nextToken, t.lock, t.starters[e.i], e.move, History(w, front)[e.i]);
      }
    }
  }

  predicate LeavesAlone(events: seq<Event>, i: nat) {
    forall k :: 0 <= k < |events| ==> !(events[k].Act? && events[k].i == i)
  }

  lemma {:induction false} AloneUnchanged(w: World, events: seq<Event>, i: nat)
    requires i < |w.starters| && LeavesAlone(events, i)
    ensures |FreeRun(w, events).starters| == |w.starters| && FreeRun(w, events).starters[i] == w.starters[i]
  {
    if events != [] {
      AloneUnchanged(w, events[..|events| - 1], i);
    }
  }

  /**
   A renewal that passes its check and then renames puts at the path its own token with the time
   of that check, whatever the others and the clock do between the two.
   */
  lemma RenewalRestartsLease(w: World, events: seq<Event>, i: nat, between: seq<Event>)
    requires i < |FreeRun(w, events).starters| && LeavesAlone(between, i)
    requires var t := FreeRun(w, events); t.starters[i].pc.Held? && Mine(t.lock, t.starters[i].token)
    ensures var t := FreeRun(w, events);
            var u := FreeStep(FreeRun(FreeStep(t, Act(i, Renew)), between), Act(i, Advance));
            u.lock == Some(Lease(t.starters[i].token, t.now)) && |u.starters| > i && u.starters[i].pc.Held?
  {
    AloneUnchanged(FreeStep(FreeRun(w, events), Act(i, Renew)), between, i);
  }

  /**
   Finding at a check or a renewal that the path no longer has its lease, a holder stops for good:
   until it releases it stays lost, though its lease be put back, and changes nothing at the path.
   */
  lemma {:induction false} LostForGood(w: World, i: nat, move: Move, later: seq<Event>)
    requires i < |w.starters| && w.starters[i].pc.Held? && !Mine(w.lock, w.starters[i].token) && move in {Check, Renew}
    requires forall k :: 0 <= k < |later| ==> later[k] != Act(i, Release)
    ensures var t := FreeRun(FreeStep(w, Act(i, move)), later);
            && |t.starters| == |w.starters| && t.starters[i].pc.Lost?
            && forall m: Move :: m != Release ==> FreeStep(t, Act(i, m)).lock == t.lock
  {
    if later != [] {
      LostForGood(w, i, move, later[..|later| - 1]);
    }
  }

  /** A renewal whose write fails leaves the path to the others, and the holder holds and may try again. */
  lemma FailedRenewalKeeps(w: World, i: nat, between: seq<Event>)
    requires i < |w.starters| && LeavesAlone(between, i)
    requires w.starters[i].pc.Held? && Mine(w.lock, w.starters[i].token)
    ensures var t := FreeRun(FreeStep(w, Act(i, Renew)), between);
            var u := FreeStep(t, Act(i, Fails));
            && u.lock == t.lock && |u.starters| == |w.starters| && u.starters[i].pc.Held?
            && u.starters[i].token == w.starters[i].token
  {
    AloneUnchanged(FreeStep(w, Act(i, Renew)), between, i);
  }

  /**
   A holder that releases, lost or not, holds nothing more. If it finds its lease at the path the
   path is empty afterwards, and whoever links next has the lease at once; if it does not, it
   removes nothing.
   */
  lemma ReleaseLetsNextIn(w: World, i: nat, between: seq<Event>, j: nat)
    requires i < |w.starters| && LeavesAlone(between, i) && w.starters[i].pc in {Held, Lost}
    requires var t := FreeRun(FreeStep(w, Act(i, Release)), between);
             j < |t.starters| == |w.starters| && j != i && t.starters[j].pc.Link?
    ensures var t := FreeRun(FreeStep(w, Act(i, Release)), between);
            var u := FreeStep(t, Act(i, Advance));
            && |u.starters| == |w.starters| && u.starters[i].pc.Idle?
            && if Mine(w.lock, w.starters[i].token) then
                 u.lock.None? && FreeStep(u, Act(j, Advance)).starters[j].pc.Held?
               else u.lock == t.lock
  {
    AloneUnchanged(FreeStep(w, Act(i, Release)), between, i);
  }

  function Linked(p: Starter, move: Move, n: nat): nat {
    if move.Begin? && p.pc in {Idle, Refused} then 0 else if move.Advance? && p.pc.Link? then n + 1 else n
  }

  /** How often each starter has called link since it last began. */
  function Links(w: World, events: seq<Event>): (n: seq<nat>)
    ensures |n| == |w.starters|
  {
    if events == [] then seq(|w.starters|, _ => 0) else
      var t, n, e := FreeRun(w, events[..|events| - 1]), Links(w, events[..|events| - 1]), events[|events| - 1];
      if e.Act? && e.i < |n| && e.i < |t.starters| then n[e.i := Linked(t.starters[e.i], e.move, n[e.i])] else n
  }

  ghost predicate Counted(p: Starter, links: nat) {
    && (p.pc.Link? ==> links == p.attempt < 3)
    && (p.pc in {Read, Rename, ReadAside, UnlinkAside} ==> links == p.attempt + 1 <= 3)
  }

  lemma ActedCounted(now: int, next: nat, lock: Option<Lease>, p: Starter, move: Move, n: nat)
    requires Counted(p, n)
    ensures Counted(Acted(now, next, lock, p, move).1, Linked(p, move, n))
  {
  }

  ghost predicate AllCounted(w: World, n: seq<nat>) {
    |n| == |w.starters| && forall i :: 0 <= i < |n| ==> Counted(w.starters[i], n[i])
  }

  lemma {:induction false} RunCounted(w: World, events: seq<Event>)
    requires forall i :: 0 <= i < |w.starters| ==> w.starters[i] == NOBODY
    ensures AllCounted(FreeRun(w, events), Links(w, events)) && |FreeRun(w, events).starters| == |w.starters|
  {
    if events != [] {
      var front, e := events[..|events| - 1], events[|events| - 1];
      RunCounted(w, front);
      var t, n := FreeRun(w, front), Links(w, front);
      if e.Act? && e.i < |n| {
        assert Counted(t.starters[e.i], n[e.i]);
        ActedCounted(t.now, t.nextToken, t.lock, t.starters[e.i], e.move, n[e.i]);
      }
    }
  }

  /**
   A starter that finds the path free again, or has freed it, links once more, and gives up once it
   has linked three times.
   */
  lemma GivesUpAfterThree(w: World, events: seq<Event>, i: nat)
    requires forall j :: 0 <= j < |w.starters| ==> w.starters[j] == NOBODY
    requires i < |w.starters| && |FreeRun(w, events).starters| == |w.starters|
    requires var t := FreeRun(w, events);
             t.starters[i].pc.UnlinkAside? || (t.starters[i].pc in {Read, Rename} && t.lock.None?)
    ensures 1 <= Links(w, events)[i] <= 3
    ensures var u := FreeStep(FreeRun(w, events), Act(i, Advance));
            && u.lock == FreeRun(w, events).lock
            && if Links(w, events)[i] < 3 then u.starters[i].pc.Link? else u.starters[i].pc.Refused?
  {
    RunCounted(w, events);
    assert Counted(FreeRun(w, events).starters[i], Links(w, events)[i]);
  }

  /** The event of the run that wrote this lease: the token its starter then has, at this time. */
  ghost predicate WrittenAt(w: World, events: seq<Event>, k: nat, l: Lease) {
    && k < |events| && events[k].Act?
    && var t := FreeRun(w, events[..k]);
       && events[k].i < |t.starters| && Writes(t.lock, t.starters[events[k].i], events[k].move)
       && l.token == (if events[k].move.Begin? then t.nextToken else t.starters[events[k].i].token) && l.renewedAt == t.now
  }

  ghost predicate Witnessed(w: World, events: seq<Event>, l: Lease) {
    exists k: nat :: WrittenAt(w, events, k, l)
  }

  lemma WitnessedLater(w: World, events: seq<Event>, e: Event, l: Lease)
    requires Witnessed(w, events, l)
    ensures Witnessed(w, events + [e], l)
  {
    var k: nat :| WrittenAt(w, events, k, l);
    assert (events + [e])[..k] == events[..k];
    assert WrittenAt(w, events + [e], k, l);
  }

  /** At the path, moved aside, or in a temp file about to be put at the path. */
  ghost predicate Around(w: World, l: Lease) {
    || w.lock == Some(l)
    || exists i :: 0 <= i < |w.starters| &&
                   ((Publishing(w.starters[i]) && w.starters[i].own == l) || w.starters[i].aside == Some(l))
  }

  lemma AroundBefore(w: World, e: Event, l: Lease)
    requires Around(FreeStep(w, e), l)
    ensures || Around(w, l)
            || (e.Act? && e.i < |w.starters| && Writes(w.lock, w.starters[e.i], e.move)
                && l == Lease(if e.move.Begin? then w.nextToken else w.starters[e.i].token, w.now))
  {
    var u := FreeStep(w, e);
    if u.lock != Some(l) {
      var i :| 0 <= i < |u.starters| && ((Publishing(u.starters[i]) && u.starters[i].own == l) || u.starters[i].aside == Some(l));
      assert 0 <= i < |w.starters|;
    } else if e.Act? && e.i < |w.starters| && w.lock != Some(l) {
      assert (Publishing(w.starters[e.i]) && w.starters[e.i].own == l) || w.starters[e.i].aside == Some(l);
    }
  }

  lemma {:induction false} AroundWitnessed(w: World, dead: Lease, events: seq<Event>, l: Lease)
    requires Init(w, dead) && l != dead && Around(FreeRun(w, events), l)
    ensures Witnessed(w, events, l)
  {
    if events != [] {
      var front, e := events[..|events| - 1], events[|events| - 1];
      AroundBefore(FreeRun(w, front), e, l);
      assert front + [e] == events;
      if Around(FreeRun(w, front), l) {
        AroundWitnessed(w, dead, front, l);
        WitnessedLater(w, front, e, l);
      } else {
        assert WrittenAt(w, events, |front|, l);
      }
    }
  }

  /**
   Whatever the clock does and however many start: a starter that judges a lease stale and goes on
   to move it aside does so 30 seconds or more after that lease was written, by the start or the
   renewal it is from; and one that finds a younger lease is refused.
   */
  lemma JudgedStaleIsOld(w: World, dead: Lease, events: seq<Event>, j: nat) returns (k: nat)
    requires Init(w, dead) && j < |FreeRun(w, events).starters|
    requires var t := FreeRun(w, events); t.starters[j].pc.Read? && t.lock.Some? && t.lock != Some(dead)
    ensures WrittenAt(w, events, k, FreeRun(w, events).lock.value)
    ensures var t := FreeRun(w, events);
            var pc := FreeStep(t, Act(j, Advance)).starters[j].pc;
            if t.now - FreeRun(w, events[..k]).now >= 30_000 then pc.Rename? else pc.Refused?
  {
    var l := FreeRun(w, events).lock.value;
    AroundWitnessed(w, dead, events, l);
    k :| WrittenAt(w, events, k, l);
    ReadJudges(FreeRun(w, events), j, l);
  }

  lemma ReadJudges(t: World, j: nat, l: Lease)
    requires j < |t.starters| && t.starters[j].pc.Read? && t.lock == Some(l)
    ensures var pc := FreeStep(t, Act(j, Advance)).starters[j].pc;
            if t.now - l.renewedAt >= 30_000 then pc.Rename? else pc.Refused?
  {
  }

  ghost predicate Judged(now: int, p: Starter) {
    && (p.pc in {Rename, ReadAside, UnlinkAside, PutBack} ==> now - p.stale.renewedAt >= LEASE_STALE_MS)
    && (p.aside.Some? <==> p.pc in {ReadAside, UnlinkAside, PutBack})
    && (p.pc.UnlinkAside? ==> p.aside == Some(p.stale))
  }

  lemma ActedJudged(now: int, next: nat, lock: Option<Lease>, p: Starter, move: Move)
    requires Judged(now, p)
    ensures Judged(now, Acted(now, next, lock, p, move).1)
  {
  }

  ghost predicate AllJudged(w: World) {
    forall i :: 0 <= i < |w.starters| ==> Judged(w.now, w.starters[i])
  }

  lemma StepJudged(w: World, e: Event)
    requires AllJudged(w)
    ensures AllJudged(FreeStep(w, e))
  {
    var t := FreeStep(w, e);
    forall i | 0 <= i < |t.starters| ensures Judged(t.now, t.starters[i]) {
      assert Judged(w.now, w.starters[i]);
      if e.Act? && e.i == i {
        ActedJudged(w.now, w.nextToken, w.lock, w.starters[i], e.move);
      }
    }
  }

  lemma {:induction false} RunJudged(w: World, dead: Lease, events: seq<Event>)
    requires Init(w, dead)
    ensures AllJudged(FreeRun(w, events))
  {
    if events != [] {
      RunJudged(w, dead, events[..|events| - 1]);
      StepJudged(FreeRun(w, events[..|events| - 1]), events[|events| - 1]);
    }
  }

  /**
   With the clock free, too, a takeover that returns normally destroys only a lease that is 30 seconds
   old: one that its holder has renewed since it was read is put back.
   */
  lemma RenewedSurvivesTakeover(w: World, dead: Lease, events: seq<Event>, e: Event, l: Lease)
    requires Init(w, dead) && Kept(FreeRun(w, events), l) && !Kept(FreeStep(FreeRun(w, events), e), l)
    ensures var t := FreeRun(w, events);
            && e.Act? && e.i < |t.starters| && e.move.Advance?
            && (Destroys(t.lock, t.starters[e.i], l) || (t.starters[e.i].pc.UnlinkAside? && t.now - l.renewedAt >= 30_000))
  {
    RunJudged(w, dead, events);
    var t, u := FreeRun(w, events), FreeStep(FreeRun(w, events), e);
    if e.Act? && e.i < |t.starters| {
      assert Judged(t.now, t.starters[e.i]);
      assert u.starters[e.i].aside != Some(l);
      forall i | 0 <= i < |t.starters| && i != e.i ensures t.starters[i].aside != Some(l) {
        assert u.starters[i] == t.starters[i];
      }
    }
  }

  /** The next n calls of one starter, with no other in between. */
  function Calls(w: World, i: nat, n: nat): World {
    if n == 0 then w else FreeStep(Calls(w, i, n - 1), Act(i, Advance))
  }

  /**
   A lease 30 seconds old is taken over, whoever's it is: a starter left alone for six calls, link, read,
   rename, read again, unlink and link, has its own at the path and holds.
   */
  lemma StaleIsTakenOver(w: World, i: nat)
    requires i < |w.starters| && w.starters[i].pc.Link? && w.starters[i].attempt < 2
    requires w.lock.Some? && w.now - w.lock.value.renewedAt >= 30_000
    ensures var t := Calls(w, i, 6);
            |t.starters| == |w.starters| && t.starters[i].pc.Held? && t.lock == Some(w.starters[i].own)
  {
    var l, p := w.lock.value, w.starters[i];
    CallsNext(w, i, 0, p, Some(l));
    CallsNext(w, i, 1, p.(pc := Read), Some(l));
    CallsNext(w, i, 2, p.(pc := Rename, stale := l), Some(l));
    CallsNext(w, i, 3, p.(pc := ReadAside, stale := l, aside := Some(l)), None);
    CallsNext(w, i, 4, p.(pc := UnlinkAside, stale := l, aside := Some(l)), None);
    CallsNext(w, i, 5, p.(stale := l, aside := None, attempt := p.attempt + 1), None);
  }

  lemma CallsNext(w: World, i: nat, n: nat, p: Starter, lock: Option<Lease>)
    requires i < |w.starters| == |Calls(w, i, n).starters| && Calls(w, i, n).now == w.now
    requires Calls(w, i, n).starters[i] == p && Calls(w, i, n).lock == lock
    ensures var t := Calls(w, i, n + 1);
            && |t.starters| == |w.starters| && t.now == w.now && t.nextToken == Calls(w, i, n).nextToken + 1
            && (t.lock, t.starters[i]) == Advanced(w.now, lock, p)
  {
  }

  // Two starters: the holder's lease at the path is always the one it last put there.

  ghost predicate NeverPublished(p: Starter) {
    p.pc in {Link, Read, Rename, ReadAside, UnlinkAside, PutBack, Refused}
  }

  ghost predicate Latest(lock: Option<Lease>, p: Starter, r: Record, other: Starter) {
    && (Owns(p) && Mine(lock, p.token) ==> lock.value.renewedAt == r.published)
    && (Owns(p) && lock.None? && Mine(other.aside, p.token) ==> other.aside.value.renewedAt == r.published)
    && (NeverPublished(p) && p.token > 0 ==> !Mine(lock, p.token) && !Mine(other.aside, p.token) && !Mine(p.aside, p.token))
  }

  lemma ActedLatest(now: int, next: nat, lock: Option<Lease>, p: Starter, r: Record, other: Starter, s: Record, move: Move)
    requires next > 0 && Leased(next, lock) && Dated(next, p, r) && Dated(next, other, s)
    requires p.token == other.token ==> p.token == 0
    requires Latest(lock, p, r, other) && Latest(lock, other, s, p)
    ensures var (lock', p') := Acted(now, next, lock, p, move);
            Latest(lock', p', Recorded(now, lock, p, move, r), other) && Latest(lock', other, s, p')
  {
  }

  lemma {:induction false} RunLatest(w: World, dead: Lease, events: seq<Event>)
    requires Init(w, dead) && |w.starters| == 2
    ensures var t, h := FreeRun(w, events), History(w, events);
            && |t.starters| == 2
            && Latest(t.lock, t.starters[0], h[0], t.starters[1]) && Latest(t.lock, t.starters[1], h[1], t.starters[0])
  {
    if events != [] {
      var front, e := events[..|events| - 1], events[|events| - 1];
      RunLatest(w, dead, front);
      RunDated(w, dead, front);
      var t, h := FreeRun(w, front), History(w, front);
      if e.Act? && e.i < 2 {
        ActedLatest(t.now, t.nextToken, t.lock, t.starters[e.i], h[e.i], t.starters[1 - e.i], h[1 - e.i], e.move);
      }
    }
  }

  /**
   Of two, a starter that finds the holder's lease at the path moves it aside if and only if the
   holder wrote the last one it linked or renewed 30 seconds ago or more; before that it is refused.
   */
  lemma HolderJudgedStaleExactly(w: World, dead: Lease, events: seq<Event>, i: nat)
    requires Init(w, dead) && |w.starters| == 2 && i < 2 && |FreeRun(w, events).starters| == 2
    requires var t := FreeRun(w, events);
             Holds(t.starters[i]) && t.starters[1 - i].pc.Read? && Mine(t.lock, t.starters[i].token)
    ensures var t := FreeRun(w, events);
            var pc := FreeStep(t, Act(1 - i, Advance)).starters[1 - i].pc;
            if t.now - History(w, events)[i].published >= 30_000 then pc.Rename? else pc.Refused?
  {
    var t, h := FreeRun(w, events), History(w, events);
    RunLatest(w, dead, events);
    LatestIsPublished(t.lock, t.starters[i], h[i], t.starters[1 - i]);
    ReadJudges(t, 1 - i, t.lock.value);
  }

  lemma LatestIsPublished(lock: Option<Lease>, p: Starter, r: Record, other: Starter)
    requires Latest(lock, p, r, other) && Holds(p) && Mine(lock, p.token)
    ensures lock.value.renewedAt == r.published
  {
  }

  /**
   The time that counts is when the lease was written, before the link: a start that takes long to
   link can be taken over a millisecond after it has its lock.
   */
  lemma LateLinkJudgedStale(w: World) returns (events: seq<Event>)
    requires Init(w, DEAD) && w.lock.None? && w.now == 0 && |w.starters| == 2
    ensures var n := |events| - 4;
            && n > 0 && events[n] == Act(0, Advance) && FreeRun(w, events[..n]).now == 29_999
            && |FreeRun(w, events[..n + 1]).starters| == |FreeRun(w, events).starters| == 2
            && FreeRun(w, events[..n + 1]).starters[0].pc.Held? && FreeRun(w, events).now == 30_000
            && FreeRun(w, events).starters[0].pc.Held? && FreeRun(w, events).starters[1].pc.Rename?
  {
    var e1, e2, e3, e4 := Act(0, Begin), Act(1, Begin), Tick(29_999), Act(0, Advance);
    var e5, e6, e7 := Tick(30_000), Act(1, Advance), Act(1, Advance);
    events := [e1, e2, e3, e4, e5, e6, e7];
    var p, q := NOBODY.(pc := Link, token := 1, own := Lease(1, 0)), NOBODY.(pc := Link, token := 2, own := Lease(2, 0));
    FreeRunSnoc(w, events, 0);
    FreeRunSnoc(w, events, 1);
    assert FreeRun(w, events[..2]) == World(0, None, [p, q], 3);
    FreeRunSnoc(w, events, 2);
    FreeRunSnoc(w, events, 3);
    assert FreeRun(w, events[..4]) == World(29_999, Some(Lease(1, 0)), [p.(pc := Held), q], 4);
    FreeRunSnoc(w, events, 4);
    FreeRunSnoc(w, events, 5);
    assert FreeRun(w, events[..6]) == World(30_000, Some(Lease(1, 0)), [p.(pc := Held), q.(pc := Read)], 5);
    FreeRunSnoc(w, events, 6);
    assert events[..7] == events;
  }

  lemma FreeRunSnoc(w: World, events: seq<Event>, k: nat)
    requires k < |events|
    ensures FreeRun(w, events[..0]) == w && FreeRun(w, events[..k + 1]) == FreeStep(FreeRun(w, events[..k]), events[k])
  {
    assert events[..k + 1][..k] == events[..k];
  }

  // Runs at the edges.

  const DEAD := Lease(0, 0)

  ghost predicate Shows(w: World, lock: Option<Lease>, p: Starter, q: Starter, rest: seq<Starter>, next: nat) {
    w.now == LEASE_STALE_MS && w.lock == lock && w.starters == [p, q] + rest && w.nextToken == next
  }

  lemma ShowsStep(w: World, i: nat, move: Move, lock: Option<Lease>, p: Starter, q: Starter, rest: seq<Starter>, next: nat)
    requires Shows(w, lock, p, q, rest, next) && i < 2
    ensures var (lock', p') := Acted(LEASE_STALE_MS, next, lock, if i == 0 then p else q, move);
            Shows(Step(w, DEAD, Act(i, move)), lock', if i == 0 then p' else p, if i == 0 then q else p', rest, next + 1)
  {
  }

  lemma RunSnoc(w: World, events: seq<Event>, e: Event)
    ensures Run(w, DEAD, events + [e]) == Step(Run(w, DEAD, events), DEAD, e)
  {
    assert (events + [e])[..|events|] == events;
  }

  lemma RunShows(w: World, events: seq<Event>, i: nat, move: Move,
                 lock: Option<Lease>, p: Starter, q: Starter, rest: seq<Starter>, next: nat)
    returns (longer: seq<Event>)
    requires Shows(Run(w, DEAD, events), lock, p, q, rest, next) && i < 2
    ensures longer == events + [Act(i, move)]
    ensures var (lock', p') := Acted(LEASE_STALE_MS, next, lock, if i == 0 then p else q, move);
            Shows(Run(w, DEAD, longer), lock', if i == 0 then p' else p, if i == 0 then q else p', rest, next + 1)
  {
    longer := events + [Act(i, move)];
    RunSnoc(w, events, Act(i, move));
    ShowsStep(Run(w, DEAD, events), i, move, lock, p, q, rest, next);
  }

  function Racer(pc: Pc, token: nat, attempt: nat, stale: Lease, aside: Option<Lease>): Starter {
    Starter(pc, token, attempt, Lease(token, LEASE_STALE_MS), stale, aside)
  }

  const FIRST := Lease(1, LEASE_STALE_MS)
  const HOLDER := Racer(Held, 1, 1, DEAD, None)
  const MOVER := Racer(ReadAside, 2, 0, DEAD, Some(FIRST))

  /** Two starters read the dead lease before either moves it. */
  lemma BothJudgeStale(w: World, rest: seq<Starter>) returns (events: seq<Event>)
    requires Shows(w, Some(DEAD), NOBODY, NOBODY, rest, 1)
    ensures Shows(Run(w, DEAD, events), Some(DEAD), Racer(Rename, 1, 0, DEAD, None), Racer(Rename, 2, 0, DEAD, None), rest, 7)
  {
    var r := RunShows(w, [], 0, Begin, Some(DEAD), NOBODY, NOBODY, rest, 1);
    r := RunShows(w, r, 1, Begin, Some(DEAD), Racer(Link, 1, 0, DEAD, None), NOBODY, rest, 2);
    r := RunShows(w, r, 0, Advance, Some(DEAD), Racer(Link, 1, 0, DEAD, None), Racer(Link, 2, 0, DEAD, None), rest, 3);
    r := RunShows(w, r, 1, Advance, Some(DEAD), Racer(Read, 1, 0, DEAD, None), Racer(Link, 2, 0, DEAD, None), rest, 4);
    r := RunShows(w, r, 0, Advance, Some(DEAD), Racer(Read, 1, 0, DEAD, None), Racer(Read, 2, 0, DEAD, None), rest, 5);
    events := RunShows(w, r, 1, Advance, Some(DEAD), Racer(Rename, 1, 0, DEAD, None), Racer(Read, 2, 0, DEAD, None), rest, 6);
  }

  /** Starter 0 then takes over and holds, and starter 1 moves its lease aside. */
  lemma WinnerMovedAside(w: World, rest: seq<Starter>) returns (events: seq<Event>)
    requires Shows(w, Some(DEAD), NOBODY, NOBODY, rest, 1)
    ensures Shows(Run(w, DEAD, events), None, HOLDER, MOVER, rest, 12)
  {
    var q := Racer(Rename, 2, 0, DEAD, None);
    var r := BothJudgeStale(w, rest);
    r := RunShows(w, r, 0, Advance, Some(DEAD), Racer(Rename, 1, 0, DEAD, None), q, rest, 7);
    r := RunShows(w, r, 0, Advance, None, Racer(ReadAside, 1, 0, DEAD, Some(DEAD)), q, rest, 8);
    r := RunShows(w, r, 0, Advance, None, Racer(UnlinkAside, 1, 0, DEAD, Some(DEAD)), q, rest, 9);
    r := RunShows(w, r, 0, Advance, None, Racer(Link, 1, 1, DEAD, None), q, rest, 10);
    events := RunShows(w, r, 1, Advance, Some(FIRST), HOLDER, q, rest, 11);
  }

  ghost predicate Racing(w: World) {
    Init(w, DEAD) && w.lock == Some(DEAD) && w.now == LEASE_STALE_MS
  }

  /**
   With two starters it can happen that nobody is left holding the lease: the winner checks it
   while the other has it aside, and stops for good.
   */
  lemma NoSurvivor(w: World) returns (events: seq<Event>)
    requires Racing(w) && |w.starters| == 2
    ensures var t := Run(w, DEAD, events);
            |t.starters| == 2 && t.starters[0].pc == Lost && t.starters[1].pc == Refused && t.lock == Some(FIRST)
  {
    assert w.starters == [NOBODY, NOBODY] + [];
    var r := WinnerMovedAside(w, []);
    r := RunShows(w, r, 0, Check, None, HOLDER, MOVER, [], 12);
    r := RunShows(w, r, 1, Advance, None, HOLDER.(pc := Lost), MOVER, [], 13);
    events := RunShows(w, r, 1, Advance, None, HOLDER.(pc := Lost), MOVER.(pc := PutBack), [], 14);
  }

  /** With any third starter, it can take the path while the winner's lease is aside: two then hold at once. */
  lemma ThreeStartersBothHold(w: World) returns (events: seq<Event>)
    requires Racing(w) && |w.starters| >= 3
    ensures var t := Run(w, DEAD, events);
            |t.starters| == |w.starters| && t.starters[0].pc.Held? && t.starters[2].pc.Held?
            && t.starters[1].pc.ReadAside? && t.starters[1].aside == Some(FIRST) && t.lock.Some? && t.lock != Some(FIRST)
  {
    var rest := w.starters[2..];
    assert w.starters == [NOBODY, NOBODY] + rest;
    var r := WinnerMovedAside(w, rest);
    var t := Run(w, DEAD, r);
    assert t.starters[2] == rest[0] == NOBODY;
    RunSnoc(w, r, Act(2, Begin));
    RunSnoc(w, r + [Act(2, Begin)], Act(2, Advance));
    events := r + [Act(2, Begin)] + [Act(2, Advance)];
  }
}
