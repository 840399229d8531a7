/**
 Any number of `signThroughLedger` calls for one request, each a program counter between its
 awaits, interleaved with each other and with requests under other keys.
 */
module LedgerContention {
  import opened OrderedMap
  import opened Ledger

  /** What the contenders share: the row's key, the signed request and the signer's identity. */
  datatype Request = Request(key: string, timestamp: int, payloadHash: Bytes, x: Bytes, y: Bytes)

  datatype Contender =
    | Begin
    | Signing
    | Offering(candidate: Signed)
    | Done(result: Signed, replayed: bool)
    | Failed

  datatype State = State(rows: Rows, contenders: seq<Contender>)

  datatype Event =
    | LooksUp(i: nat, now: int)
    | Signs(i: nat, candidate: Signed)
    | SignFails(i: nat)
    | Offers(i: nat, now: int)
    | OtherLookup(now: int)
    | OtherOffer(key: string, timestamp: int, signed: Signed, now: int)

  /** The ledger's settings, and everything `validateReplayResult` checks beyond identity and payload. */
  datatype Setting = Setting(retention: nat, max: nat, genuine: Signed -> bool)

  predicate Accepts(g: Setting, q: Request, v: Signed) {
    v.pubkeyX == q.x && v.pubkeyY == q.y && v.payloadHash == q.payloadHash && g.genuine(v)
  }

  function Live(g: Setting, rows: Rows, now: int): Rows {
    Unexpired(rows, now - g.retention)
  }

  function Answer(g: Setting, q: Request, v: Signed, replayed: bool): Contender {
    if Accepts(g, q, v) then Done(v, replayed) else Failed
  }

  function StepLookup(g: Setting, q: Request, s: State, i: nat, now: int): State
    requires i < |s.contenders|
  {
    var rows := Live(g, s.rows, now);
    var at := Find(rows, q.key);
    var found := at < |rows| && rows[at].1.signed.pubkeyX == q.x && rows[at].1.signed.pubkeyY == q.y;
    State(rows, s.contenders[i := if found then Answer(g, q, rows[at].1.signed, true) else Signing])
  }

  function StepOffer(g: Setting, q: Request, s: State, i: nat, now: int): State
    requires i < |s.contenders| && s.contenders[i].Offering?
  {
    var rows, candidate := Live(g, s.rows, now), s.contenders[i].candidate;
    State(Offered(rows, q.key, q.timestamp, candidate, g.max),
          s.contenders[i := Answer(g, q, Canonical(rows, q.key, candidate), Stands(rows, q.key, candidate))])
  }

  /** A signing answers under the captured identity; an event that is not enabled changes nothing. */
  function Step(g: Setting, q: Request, s: State, e: Event): State {
    match e
    case LooksUp(i, now) =>
      if i < |s.contenders| && s.contenders[i].Begin? then StepLookup(g, q, s, i, now) else s
    case Signs(i, candidate) =>
      if i < |s.contenders| && s.contenders[i].Signing? && candidate.pubkeyX == q.x && candidate.pubkeyY == q.y
      then s.(contenders := s.contenders[i := Offering(candidate)]) else s
    case SignFails(i) =>
      if i < |s.contenders| && s.contenders[i].Signing? then s.(contenders := s.contenders[i := Failed]) else s
    case Offers(i, now) =>
      if i < |s.contenders| && s.contenders[i].Offering? then StepOffer(g, q, s, i, now) else s
    case OtherLookup(now) => s.(rows := Live(g, s.rows, now))
    case OtherOffer(key, timestamp, signed, now) =>
      if key == q.key then s else s.(rows := Offered(Live(g, s.rows, now), key, timestamp, signed, g.max))
  }

  function Run(g: Setting, q: Request, s: State, events: seq<Event>): State {
    if events == [] then s else Step(g, q, Run(g, q, s, events[..|events| - 1]), events[|events| - 1])
  }

  // Rows.

  /** The request's row stands, with at most `after` rows inserted behind it. */
  predicate Retained(rows: Rows, key: string, row: Row, after: nat) {
    var i := Find(rows, key);
    i < |rows| && rows[i].1 == row && |rows| - 1 - i <= after
  }

  lemma {:induction false} UnexpiredKeeps(rows: Rows, cutoff: int, key: string, row: Row, after: nat)
    requires Distinct(rows) && Retained(rows, key, row, after) && row.timestamp >= cutoff
    ensures Distinct(Unexpired(rows, cutoff)) && Retained(Unexpired(rows, cutoff), key, row, after)
  {
    var n := |rows| - 1;
    UnexpiredFrom(rows, cutoff);
    if Find(rows, key) == n {
      UnexpiredFrom(rows[..n], cutoff);
      FindIs(Unexpired(rows, cutoff), key, |Unexpired(rows[..n], cutoff)|);
    } else {
      FindIs(rows[..n], key, Find(rows, key));
      UnexpiredKeeps(rows[..n], cutoff, key, row, after - 1);
      var rest := Unexpired(rows[..n], cutoff);
      FindIs(rest + [rows[n]], key, Find(rest, key));
    }
  }

  lemma {:induction false} UnexpiredFrom(rows: Rows, cutoff: int)
    requires Distinct(rows)
    ensures Distinct(Unexpired(rows, cutoff)) && |Unexpired(rows, cutoff)| <= |rows|
    ensures forall r :: r in Unexpired(rows, cutoff) ==> r in rows
  {
    if rows != [] {
      var n := |rows| - 1;
      var rest := Unexpired(rows[..n], cutoff);
      UnexpiredFrom(rows[..n], cutoff);
      forall j | 0 <= j < |rest| ensures rest[j] in rows[..n] && rest[j].0 != rows[n].0 {
        assert rest[j] in rest;
      }
    }
  }

  lemma NewestKeeps(rows: Rows, key: string, row: Row, after: nat, max: nat)
    requires Distinct(rows) && Retained(rows, key, row, after) && after < max
    ensures Distinct(Newest(rows, max)) && Retained(Newest(rows, max), key, row, after)
  {
    if |rows| > max {
      FindIs(Newest(rows, max), key, Find(rows, key) - (|rows| - max));
    }
  }

  lemma DeleteOtherKeeps(rows: Rows, key: string, row: Row, after: nat, other: string)
    requires Distinct(rows) && Retained(rows, key, row, after) && other != key
    ensures Distinct(Delete(rows, other)) && Retained(Delete(rows, other), key, row, after)
  {
    var i, k := Find(rows, key), Find(rows, other);
    DeleteIsRemove(rows, other);
    if k < |rows| {
      var at := if i < k then i else i - 1;
      assert Delete(rows, other)[at] == rows[i];
      forall j | 0 <= j < at ensures Delete(rows, other)[j].0 != key {
        DeletedFrom(rows, other, j);
      }
      FindIs(Delete(rows, other), key, at);
    }
  }

  lemma OtherOfferKeeps(rows: Rows, key: string, row: Row, after: nat, other: string, timestamp: int, signed: Signed, max: nat)
    requires Distinct(rows) && Retained(rows, key, row, after) && other != key && after + 1 < max
    ensures var t := Offered(rows, other, timestamp, signed, max); Distinct(t) && Retained(t, key, row, after + 1)
  {
    if !Stands(rows, other, signed) {
      DeleteOtherKeeps(rows, key, row, after, other);
      var rest := Delete(rows, other);
      DeletedAbsent(rows, other);
      FindIs(rest + [(other, Row(timestamp, signed))], key, Find(rest, key));
      NewestKeeps(rest + [(other, Row(timestamp, signed))], key, row, after + 1, max);
    }
  }

  lemma OfferInserts(rows: Rows, key: string, timestamp: int, signed: Signed, max: nat)
    requires Distinct(rows) && Find(rows, key) == |rows| && max >= 1
    ensures var t := Offered(rows, key, timestamp, signed, max); Distinct(t) && Retained(t, key, Row(timestamp, signed), 0)
  {
    var t := rows + [(key, Row(timestamp, signed))];
    FindIs(t, key, |rows|);
    NewestKeeps(t, key, Row(timestamp, signed), 0, max);
  }

  lemma AbsentStays(rows: Rows, cutoff: int, key: string)
    requires Distinct(rows) && Find(rows, key) == |rows|
    ensures Find(Unexpired(rows, cutoff), key) == |Unexpired(rows, cutoff)|
  {
    var live := Unexpired(rows, cutoff);
    UnexpiredFrom(rows, cutoff);
    forall j | 0 <= j < |live| ensures live[j].0 != key {
      assert live[j] in live;
    }
    FindIs(live, key, |live|);
  }

  lemma NewestAbsent(rows: Rows, key: string, max: nat)
    requires Distinct(rows) && Find(rows, key) == |rows|
    ensures Distinct(Newest(rows, max)) && Find(Newest(rows, max), key) == |Newest(rows, max)|
  {
    FindIs(Newest(rows, max), key, |Newest(rows, max)|);
  }

  lemma DeleteAbsent(rows: Rows, key: string, other: string)
    requires Distinct(rows) && Find(rows, key) == |rows|
    ensures Distinct(Delete(rows, other)) && Find(Delete(rows, other), key) == |Delete(rows, other)|
  {
    var rest := Delete(rows, other);
    DeleteIsRemove(rows, other);
    forall j | 0 <= j < |rest| ensures rest[j].0 != key {
      DeletedFrom(rows, other, j);
    }
    FindIs(rest, key, |rest|);
  }

  lemma OtherOfferAbsent(rows: Rows, key: string, other: string, timestamp: int, signed: Signed, max: nat)
    requires Distinct(rows) && Find(rows, key) == |rows| && other != key
    ensures var t := Offered(rows, other, timestamp, signed, max); Distinct(t) && Find(t, key) == |t|
  {
    if !Stands(rows, other, signed) {
      DeleteAbsent(rows, key, other);
      DeletedAbsent(rows, other);
      var t := Delete(rows, other) + [(other, Row(timestamp, signed))];
      FindIs(t, key, |t|);
      NewestAbsent(t, key, max);
    }
  }

  // The invariant.

  /** No answer yet and no row; or one row, the bundle of every answer, with its one inserter not replayed. */
  ghost predicate Inv(g: Setting, q: Request, s: State, others: nat) {
    && Distinct(s.rows) && Matching(q, s)
    && (NoneYet(q, s) || exists inserter: nat, v: Signed :: Settled(g, q, s, others, inserter, v))
  }

  /** Candidates carry the captured identity. */
  predicate Matching(q: Request, s: State) {
    forall i :: 0 <= i < |s.contenders| && s.contenders[i].Offering? ==>
                  s.contenders[i].candidate.pubkeyX == q.x && s.contenders[i].candidate.pubkeyY == q.y
  }

  predicate Settled(g: Setting, q: Request, s: State, others: nat, inserter: nat, v: Signed) {
    && Retained(s.rows, q.key, Row(q.timestamp, v), others)
    && v.pubkeyX == q.x && v.pubkeyY == q.y
    && inserter < |s.contenders| && s.contenders[inserter] == Answer(g, q, v, false)
    && forall i :: 0 <= i < |s.contenders| && i != inserter && s.contenders[i].Done? ==>
                     Accepts(g, q, v) && s.contenders[i] == Done(v, true)
  }

  predicate NoneYet(q: Request, s: State) {
    Find(s.rows, q.key) == |s.rows| && forall i :: 0 <= i < |s.contenders| ==> !s.contenders[i].Done?
  }

  predicate Unexpiring(g: Setting, q: Request, e: Event) {
    e.Signs? || e.SignFails? || e.now - g.retention <= q.timestamp
  }

  lemma LiveKeeps(g: Setting, q: Request, s: State, now: int, others: nat, inserter: nat, v: Signed)
    requires Distinct(s.rows) && Settled(g, q, s, others, inserter, v) && now - g.retention <= q.timestamp
    ensures var rows := Live(g, s.rows, now); Distinct(rows) && Retained(rows, q.key, Row(q.timestamp, v), others)
  {
    UnexpiredKeeps(s.rows, now - g.retention, q.key, Row(q.timestamp, v), others);
  }

  lemma SettledLookup(g: Setting, q: Request, s: State, i: nat, now: int, others: nat, inserter: nat, v: Signed)
    requires Distinct(s.rows) && Matching(q, s) && Settled(g, q, s, others, inserter, v)
    requires i < |s.contenders| && s.contenders[i].Begin? && now - g.retention <= q.timestamp
    ensures var t := StepLookup(g, q, s, i, now); Distinct(t.rows) && Matching(q, t) && Settled(g, q, t, others, inserter, v)
  {
    LiveKeeps(g, q, s, now, others, inserter, v);
  }

  lemma SettledOffer(g: Setting, q: Request, s: State, i: nat, now: int, others: nat, inserter: nat, v: Signed)
    requires Distinct(s.rows) && Matching(q, s) && Settled(g, q, s, others, inserter, v)
    requires i < |s.contenders| && s.contenders[i].Offering? && now - g.retention <= q.timestamp
    ensures var t := StepOffer(g, q, s, i, now); Distinct(t.rows) && Matching(q, t) && Settled(g, q, t, others, inserter, v)
  {
    LiveKeeps(g, q, s, now, others, inserter, v);
  }

  lemma SettledStep(g: Setting, q: Request, s: State, e: Event, others: nat, inserter: nat, v: Signed)
    requires Distinct(s.rows) && Matching(q, s) && Settled(g, q, s, others, inserter, v)
    requires Unexpiring(g, q, e) && (e.OtherOffer? ==> others + 1 < g.max)
    ensures var t := Step(g, q, s, e);
            Distinct(t.rows) && Matching(q, t) && Settled(g, q, t, others + (if e.OtherOffer? then 1 else 0), inserter, v)
  {
    match e
    case LooksUp(i, now) =>
      if i < |s.contenders| && s.contenders[i].Begin? { SettledLookup(g, q, s, i, now, others, inserter, v); }
    case Offers(i, now) =>
      if i < |s.contenders| && s.contenders[i].Offering? { SettledOffer(g, q, s, i, now, others, inserter, v); }
    case OtherLookup(now) => LiveKeeps(g, q, s, now, others, inserter, v);
    case OtherOffer(key, timestamp, signed, now) =>
      LiveKeeps(g, q, s, now, others, inserter, v);
      if key != q.key {
        OtherOfferKeeps(Live(g, s.rows, now), q.key, Row(q.timestamp, v), others, key, timestamp, signed, g.max);
      }
    case Signs(i, candidate) =>
    case SignFails(i) =>
  }

  lemma LiveAbsent(g: Setting, rows: Rows, now: int, key: string)
    requires Distinct(rows) && Find(rows, key) == |rows|
    ensures Distinct(Live(g, rows, now)) && Find(Live(g, rows, now), key) == |Live(g, rows, now)|
  {
    UnexpiredFrom(rows, now - g.retention);
    AbsentStays(rows, now - g.retention, key);
  }

  lemma FirstOffer(g: Setting, q: Request, s: State, i: nat, now: int)
    requires Distinct(s.rows) && Matching(q, s) && NoneYet(q, s) && g.max >= 1
    requires i < |s.contenders| && s.contenders[i].Offering?
    ensures var t := StepOffer(g, q, s, i, now);
            Distinct(t.rows) && Matching(q, t) && Settled(g, q, t, 0, i, s.contenders[i].candidate)
  {
    LiveAbsent(g, s.rows, now, q.key);
    OfferInserts(Live(g, s.rows, now), q.key, q.timestamp, s.contenders[i].candidate, g.max);
  }

  lemma NoneYetStep(g: Setting, q: Request, s: State, e: Event) returns (inserter: nat, v: Signed)
    requires Distinct(s.rows) && Matching(q, s) && NoneYet(q, s) && g.max >= 1
    ensures var t := Step(g, q, s, e);
            Distinct(t.rows) && Matching(q, t) && (NoneYet(q, t) || Settled(g, q, t, 0, inserter, v))
  {
    inserter, v := 0, Signed([], [], [], [], []);
    match e
    case LooksUp(i, now) => LiveAbsent(g, s.rows, now, q.key);
    case Offers(i, now) =>
      if i < |s.contenders| && s.contenders[i].Offering? {
        inserter, v := i, s.contenders[i].candidate;
        FirstOffer(g, q, s, i, now);
      }
    case OtherLookup(now) => LiveAbsent(g, s.rows, now, q.key);
    case OtherOffer(key, timestamp, signed, now) =>
      if key != q.key {
        LiveAbsent(g, s.rows, now, q.key);
        OtherOfferAbsent(Live(g, s.rows, now), q.key, key, timestamp, signed, g.max);
      }
    case Signs(i, candidate) =>
    case SignFails(i) =>
  }

  function Others(events: seq<Event>): nat {
    if events == [] then 0
    else Others(events[..|events| - 1]) + if events[|events| - 1].OtherOffer? then 1 else 0
  }

  predicate Init(q: Request, s: State) {
    && NoneYet(q, s)
    && forall i :: 0 <= i < |s.contenders| ==> s.contenders[i].Begin?
  }

  lemma StepKeeps(g: Setting, q: Request, s: State, e: Event, others: nat)
    requires Inv(g, q, s, others) && Unexpiring(g, q, e) && g.max >= 1 && (e.OtherOffer? ==> others + 1 < g.max)
    ensures Inv(g, q, Step(g, q, s, e), others + if e.OtherOffer? then 1 else 0)
  {
    if NoneYet(q, s) {
      var inserter, v := NoneYetStep(g, q, s, e);
      if !NoneYet(q, Step(g, q, s, e)) {
        SettledMore(g, q, Step(g, q, s, e), others + (if e.OtherOffer? then 1 else 0), inserter, v);
      }
    } else {
      var inserter: nat, v: Signed :| Settled(g, q, s, others, inserter, v);
      SettledStep(g, q, s, e, others, inserter, v);
    }
  }

  lemma SettledMore(g: Setting, q: Request, s: State, others: nat, inserter: nat, v: Signed)
    requires Settled(g, q, s, 0, inserter, v)
    ensures Settled(g, q, s, others, inserter, v)
  {
  }

  lemma {:induction false} RunKeeps(g: Setting, q: Request, s: State, events: seq<Event>)
    requires Init(q, s) && Distinct(s.rows) && Others(events) < g.max
    requires forall i :: 0 <= i < |events| ==> Unexpiring(g, q, events[i])
    ensures Inv(g, q, Run(g, q, s, events), Others(events))
  {
    if events != [] {
      var prior := events[..|events| - 1];
      RunKeeps(g, q, s, prior);
      StepKeeps(g, q, Run(g, q, s, prior), events[|events| - 1], Others(prior));
    }
  }

  /** A genuine bundle of this request's signer and payload. */
  predicate IsRightful(g: Setting, q: Request, v: Signed) {
    v.pubkeyX == q.x && v.pubkeyY == q.y && v.payloadHash == q.payloadHash && g.genuine(v)
  }

  /**
   While fewer than `max` other requests are recorded and the clock has not outrun the
   request's retention, every contender that finishes gets one and the same bundle, whatever
   each of them signed, and exactly one is told it was not replayed.
   */
  lemma OneBundle(g: Setting, q: Request, s: State, events: seq<Event>, i: nat, j: nat)
    requires Init(q, s) && Distinct(s.rows) && Others(events) < g.max
    requires forall k :: 0 <= k < |events| ==> Unexpiring(g, q, events[k])
    requires var t := Run(g, q, s, events);
             i < |t.contenders| && j < |t.contenders| && t.contenders[i].Done? && t.contenders[j].Done?
    ensures var t := Run(g, q, s, events);
            && t.contenders[i].result == t.contenders[j].result && IsRightful(g, q, t.contenders[i].result)
            && (!t.contenders[i].replayed && !t.contenders[j].replayed ==> i == j)
            && exists k :: 0 <= k < |t.contenders| && t.contenders[k] == Done(t.contenders[i].result, false)
  {
    RunKeeps(g, q, s, events);
    var t := Run(g, q, s, events);
    var inserter: nat, v: Signed :| Settled(g, q, t, Others(events), inserter, v);
    assert t.contenders[inserter] == Done(v, false);
  }

  /** Once one has its bundle, a contender that only now looks it up is answered with that bundle and never signs. */
  lemma LateCallerReplays(g: Setting, q: Request, s: State, events: seq<Event>, i: nat, j: nat, now: int)
    requires Init(q, s) && Distinct(s.rows) && Others(events) < g.max
    requires forall k :: 0 <= k < |events| ==> Unexpiring(g, q, events[k])
    requires var t := Run(g, q, s, events);
             i < |t.contenders| && j < |t.contenders| && t.contenders[i].Done? && t.contenders[j].Begin?
    requires now - g.retention <= q.timestamp
    ensures var t, u := Run(g, q, s, events), Run(g, q, s, events + [LooksUp(j, now)]);
            |u.contenders| == |t.contenders| && u.contenders[j] == Done(t.contenders[i].result, true)
  {
    RunKeeps(g, q, s, events);
    Runs(g, q, s, events, LooksUp(j, now));
    var t := Run(g, q, s, events);
    var inserter: nat, v: Signed :| Settled(g, q, t, Others(events), inserter, v);
    LiveKeeps(g, q, t, now, Others(events), inserter, v);
  }

  /** A signing that fails fails its own call for good, and leaves the ledger and the other calls as they were. */
  lemma {:induction false} FailureIsItsOwn(g: Setting, q: Request, s: State, i: nat, later: seq<Event>)
    requires i < |s.contenders| && s.contenders[i].Signing?
    ensures var t := Step(g, q, s, SignFails(i));
            && t.rows == s.rows && |t.contenders| == |s.contenders|
            && (forall j :: 0 <= j < |s.contenders| && j != i ==> t.contenders[j] == s.contenders[j])
            && |Run(g, q, t, later).contenders| == |s.contenders| && Run(g, q, t, later).contenders[i].Failed?
  {
    if later != [] {
      FailureIsItsOwn(g, q, s, i, later[..|later| - 1]);
      FailedStays(g, q, Run(g, q, Step(g, q, s, SignFails(i)), later[..|later| - 1]), later[|later| - 1], i);
    }
  }

  lemma FailedStays(g: Setting, q: Request, s: State, e: Event, i: nat)
    requires i < |s.contenders| && s.contenders[i].Failed?
    ensures var t := Step(g, q, s, e); |t.contenders| == |s.contenders| && t.contenders[i].Failed?
  {
  }

  // What happens outside those bounds.

  lemma Runs(g: Setting, q: Request, s: State, events: seq<Event>, e: Event)
    ensures Run(g, q, s, events + [e]) == Step(g, q, Run(g, q, s, events), e)
  {
    assert (events + [e])[..|events|] == events;
  }

  /** One contender alone, from lookup to answer. */
  lemma Alone(g: Setting, q: Request, s: State, before: seq<Event>, i: nat, v: Signed, now: int) returns (events: seq<Event>)
    requires var t := Run(g, q, s, before); i < |t.contenders| && t.contenders[i].Begin? && Live(g, t.rows, now) == []
    requires Accepts(g, q, v) && g.max >= 1
    ensures events == before + [LooksUp(i, now), Signs(i, v), Offers(i, now)]
    ensures var t := Run(g, q, s, before);
            Run(g, q, s, events) == State([(q.key, Row(q.timestamp, v))], t.contenders[i := Done(v, false)])
  {
    var one := before + [LooksUp(i, now)];
    var two := one + [Signs(i, v)];
    events := two + [Offers(i, now)];
    Runs(g, q, s, before, LooksUp(i, now));
    Runs(g, q, s, one, Signs(i, v));
    Runs(g, q, s, two, Offers(i, now));
    var t := Run(g, q, s, before);
    assert Run(g, q, s, one) == State([], t.contenders[i := Signing]);
    assert Run(g, q, s, two) == State([], t.contenders[i := Offering(v)]);
    assert events == before + [LooksUp(i, now), Signs(i, v), Offers(i, now)];
  }

  /**
   Once the clock outruns the retention a second contender gets a bundle of its own; and so it does,
   however its own clock stands, when a lookup for another request ran so late.
   */
  lemma ExpirySplits(g: Setting, q: Request, v: Signed, w: Signed, byOther: bool) returns (events: seq<Event>)
    requires IsRightful(g, q, v) && IsRightful(g, q, w) && v != w && g.max >= 1
    ensures Others(events) == 0
    ensures byOther ==> forall i :: 0 <= i < |events| && !events[i].OtherLookup? ==> Unexpiring(g, q, events[i])
    ensures Run(g, q, State([], [Begin, Begin]), events).contenders == [Done(v, false), Done(w, false)]
  {
    var s := State([], [Begin, Begin]);
    var late := q.timestamp + g.retention + 1;
    events := Alone(g, q, s, [], 0, v, q.timestamp);
    var t := Run(g, q, s, events);
    assert t.rows[..0] == [] && Unexpired(t.rows[..0], late - g.retention) == [];
    if byOther {
      Runs(g, q, s, events, OtherLookup(late));
      events := Alone(g, q, s, events + [OtherLookup(late)], 1, w, q.timestamp);
    } else {
      events := Alone(g, q, s, events, 1, w, late);
    }
    CountOthers(events);
  }

  function OtherKey(q: Request, n: nat): (key: string)
    ensures |key| == |q.key| + n
  {
    if n == 0 then q.key else OtherKey(q, n - 1) + "*"
  }

  /** The row of the request and those of n others, recorded after it. */
  function Crowd(q: Request, v: Signed, n: nat): Rows {
    if n == 0 then [(q.key, Row(q.timestamp, v))]
    else Crowd(q, v, n - 1) + [(OtherKey(q, n), Row(q.timestamp, v))]
  }

  lemma {:induction false} CrowdIs(q: Request, v: Signed, n: nat)
    ensures |Crowd(q, v, n)| == n + 1
    ensures forall i :: 0 <= i <= n ==> Crowd(q, v, n)[i] == (OtherKey(q, i), Row(q.timestamp, v))
  {
    if n > 0 {
      CrowdIs(q, v, n - 1);
      forall i | 0 <= i <= n ensures Crowd(q, v, n)[i] == (OtherKey(q, i), Row(q.timestamp, v)) {
        assert i < n ==> Crowd(q, v, n)[i] == Crowd(q, v, n - 1)[i];
      }
    }
  }

  lemma CrowdStep(g: Setting, q: Request, s: State, v: Signed, n: nat)
    requires 1 <= n <= g.max && s.rows == Newest(Crowd(q, v, n - 1), g.max)
    ensures Step(g, q, s, OtherOffer(OtherKey(q, n), q.timestamp, v, q.timestamp)) == State(Newest(Crowd(q, v, n), g.max), s.contenders)
  {
    CrowdOffered(g, q, v, n);
    assert |OtherKey(q, n)| != |q.key|;
  }

  lemma CrowdOffered(g: Setting, q: Request, v: Signed, n: nat)
    requires 1 <= n <= g.max
    ensures var rows := Newest(Crowd(q, v, n - 1), g.max);
            Offered(Live(g, rows, q.timestamp), OtherKey(q, n), q.timestamp, v, g.max) == Newest(Crowd(q, v, n), g.max)
  {
    var rows := Crowd(q, v, n - 1);
    CrowdIs(q, v, n - 1);
    FreshStays(rows, q.timestamp - g.retention);
    forall i | 0 <= i < n ensures rows[i].0 != OtherKey(q, n) {
      assert |rows[i].0| == |q.key| + i;
    }
    FindIs(rows, OtherKey(q, n), n);
  }

  predicate AllWithin(g: Setting, q: Request, events: seq<Event>) {
    forall i :: 0 <= i < |events| ==> Unexpiring(g, q, events[i])
  }

  lemma Extended(g: Setting, q: Request, s: State, prior: seq<Event>, e: Event) returns (events: seq<Event>)
    requires AllWithin(g, q, prior) && Unexpiring(g, q, e)
    ensures Run(g, q, s, events) == Step(g, q, Run(g, q, s, prior), e)
    ensures Others(events) == Others(prior) + (if e.OtherOffer? then 1 else 0) && AllWithin(g, q, events)
  {
    events := prior + [e];
    Runs(g, q, s, prior, e);
    assert events[..|prior|] == prior;
  }

  /** n other requests are recorded after the first contender's. */
  lemma {:induction false} CrowdAfter(g: Setting, q: Request, s: State, before: seq<Event>, v: Signed, n: nat)
    returns (events: seq<Event>)
    requires Run(g, q, s, before).rows == Crowd(q, v, 0) && n <= g.max && g.max >= 1 && AllWithin(g, q, before)
    ensures Run(g, q, s, events) == State(Newest(Crowd(q, v, n), g.max), Run(g, q, s, before).contenders)
    ensures Others(events) == Others(before) + n && AllWithin(g, q, events)
  {
    if n == 0 {
      events := before;
    } else {
      var prior := CrowdAfter(g, q, s, before, v, n - 1);
      var e := OtherOffer(OtherKey(q, n), q.timestamp, v, q.timestamp);
      CrowdStep(g, q, Run(g, q, s, prior), v, n);
      events := Extended(g, q, s, prior, e);
    }
  }

  /** One contender, whose request has no row, from lookup to answer. */
  lemma Afresh(g: Setting, q: Request, s: State, before: seq<Event>, i: nat, v: Signed, now: int) returns (events: seq<Event>)
    requires var t := Run(g, q, s, before);
             && i < |t.contenders| && t.contenders[i].Begin? && Live(g, t.rows, now) == t.rows
             && Find(t.rows, q.key) == |t.rows|
    requires IsRightful(g, q, v)
    ensures events == before + [LooksUp(i, now), Signs(i, v), Offers(i, now)]
    ensures Run(g, q, s, events).contenders == Run(g, q, s, before).contenders[i := Done(v, false)]
  {
    var one := before + [LooksUp(i, now)];
    var two := one + [Signs(i, v)];
    events := two + [Offers(i, now)];
    Runs(g, q, s, before, LooksUp(i, now));
    Runs(g, q, s, one, Signs(i, v));
    Runs(g, q, s, two, Offers(i, now));
    var t := Run(g, q, s, before);
    assert Run(g, q, s, one) == State(t.rows, t.contenders[i := Signing]);
    assert Run(g, q, s, two) == State(t.rows, t.contenders[i := Offering(v)]);
    assert events == before + [LooksUp(i, now), Signs(i, v), Offers(i, now)];
  }

  /**
   The bound on other requests is exact: with `max` of them in between, all within the retention, a second
   contender gets a bundle of its own.
   */
  lemma CrowdSplits(g: Setting, q: Request, v: Signed, w: Signed) returns (events: seq<Event>)
    requires IsRightful(g, q, v) && IsRightful(g, q, w) && v != w && g.max >= 1
    ensures Others(events) == g.max
    ensures AllWithin(g, q, events)
    ensures Run(g, q, State([], [Begin, Begin]), events).contenders == [Done(v, false), Done(w, false)]
  {
    var crowded := Crowded(g, q, v);
    CrowdedOut(g, q, v, g.max);
    events := Afresh(g, q, State([], [Begin, Begin]), crowded, 1, w, q.timestamp);
    CallWithin(g, q, crowded, 1, w);
    assert [Done(v, false), Begin][1 := Done(w, false)] == [Done(v, false), Done(w, false)];
  }

  lemma CallWithin(g: Setting, q: Request, events: seq<Event>, i: nat, w: Signed)
    requires AllWithin(g, q, events)
    ensures var more := events + [LooksUp(i, q.timestamp), Signs(i, w), Offers(i, q.timestamp)];
            AllWithin(g, q, more) && Others(more) == Others(events)
  {
    OthersAre(events, [LooksUp(i, q.timestamp), Signs(i, w), Offers(i, q.timestamp)]);
  }

  lemma Crowded(g: Setting, q: Request, v: Signed) returns (events: seq<Event>)
    requires IsRightful(g, q, v) && g.max >= 1
    ensures Others(events) == g.max && AllWithin(g, q, events)
    ensures Run(g, q, State([], [Begin, Begin]), events) == State(Newest(Crowd(q, v, g.max), g.max), [Done(v, false), Begin])
  {
    var s := State([], [Begin, Begin]);
    var first := Alone(g, q, s, [], 0, v, q.timestamp);
    CountOthers(first);
    assert [Begin, Begin][0 := Done(v, false)] == [Done(v, false), Begin];
    events := CrowdAfter(g, q, s, first, v, g.max);
  }

  lemma CrowdedOut(g: Setting, q: Request, v: Signed, n: nat)
    requires n >= 1
    ensures var rows := Newest(Crowd(q, v, n), n); Live(g, rows, q.timestamp) == rows && Find(rows, q.key) == |rows|
  {
    CrowdIs(q, v, n);
    var rows := Newest(Crowd(q, v, n), n);
    assert rows == Crowd(q, v, n)[1..];
    FreshStays(rows, q.timestamp - g.retention);
    FindIs(rows, q.key, |rows|);
  }

  lemma {:induction false} FreshStays(rows: Rows, cutoff: int)
    requires forall i :: 0 <= i < |rows| ==> rows[i].1.timestamp >= cutoff
    ensures Unexpired(rows, cutoff) == rows
  {
    if rows != [] {
      FreshStays(rows[..|rows| - 1], cutoff);
    }
  }

  lemma {:induction false} OthersAre(events: seq<Event>, rest: seq<Event>)
    requires forall i :: 0 <= i < |rest| ==> !rest[i].OtherOffer?
    ensures Others(events + rest) == Others(events)
  {
    if rest == [] {
      assert events + rest == events;
    } else {
      OthersAre(events, rest[..|rest| - 1]);
      assert (events + rest)[..|events + rest| - 1] == events + rest[..|rest| - 1];
    }
  }

  lemma {:induction false} CountOthers(events: seq<Event>)
    requires forall i :: 0 <= i < |events| ==> !events[i].OtherOffer?
    ensures Others(events) == 0
  {
    if events != [] {
      CountOthers(events[..|events| - 1]);
    }
  }
}
