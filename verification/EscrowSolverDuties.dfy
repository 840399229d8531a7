/**
 What every run of the escrow solver gets done: an acceptance on record is driven until it is
 claimed or refused for good, and the record moves only as far as the order has.
 */
module EscrowSolverDuties {
  import opened DurableMap
  import opened EscrowSolver
  import opened EscrowSolverSafety
  import opened Wrappers

  // Owed acceptances are driven.

  /**
   `taken`: the acceptances this process resumed, recorded or posted. `let`: those it may stop
   driving, their fill refused for good or their claim loop thrown or aborted since.
   */
  datatype Duty = Duty(taken: set<(Id, Id)>, let: set<(Id, Id)>)

  function Pair(p: Prepared): (Id, Id) {
    (p.order, p.fillId)
  }

  function Takes(d: Duty, p: Prepared): Duty {
    Duty(d.taken + {Pair(p)}, d.let - {Pair(p)})
  }

  ghost function FillDuty(s: State, e: FillEvent, d: Duty): Duty
    requires FillEnabled(s, e)
  {
    match e
    case Sign(NoFault) => if s.process.foreground.persist then Takes(d, s.process.foreground.p) else d
    case Post => Takes(d, s.process.foreground.p)
    case FillRefused => d.(let := d.let + {Pair(s.process.foreground.p)})
    case _ => d
  }

  ghost function TaskDuty(s: State, id: TaskId, e: TaskEvent, d: Duty): Duty
    requires TaskEnabled(s, id, e)
  {
    var p := s.process.tasks[id].prepared;
    match e
    case TaskSign(NoFault) => Takes(d, p)
    case TaskPost => Takes(d, p)
    case TaskReposts(true) => Takes(d, p)
    case ClaimEnds(Threw, _) => d.(let := d.let + {Pair(p)})
    case ClaimEnds(Aborted, _) => d.(let := d.let + {Pair(p)})
    case _ => d
  }

  ghost function StepDuty(s: State, e: Event, d: Duty): Duty {
    if !Enabled(s, e) then d else
      match e
      case Crash => Duty({}, {})
      case Restart(_) =>
        Duty(set o | o in s.disk && !s.disk[o].phase.Accepting? :: (o, s.disk[o].prepared.fillId), {})
      case FillStep(fill) => FillDuty(s, fill, d)
      case TaskStep(id, task) => TaskDuty(s, id, task, d)
      case _ => d
  }

  ghost function DutyAfter(s: State, events: seq<Event>): Duty {
    if events == [] then Duty({}, {}) else
      StepDuty(Run(s, events[..|events| - 1]), events[|events| - 1], DutyAfter(s, events[..|events| - 1]))
  }

  /** The award in progress will fill it. */
  ghost predicate InHand(s: State, order: Id, fillId: Id)
    requires s.process.Up?
  {
    match s.process.foreground
    case Posting(p, recorded) => recorded && Pair(p) == (order, fillId)
    case Filling(p) => Pair(p) == (order, fillId)
    case _ => false
  }

  ghost predicate Driven(s: State, order: Id, fillId: Id)
    requires s.process.Up?
  {
    exists id :: id in s.process.tasks && Pair(s.process.tasks[id].prepared) == (order, fillId)
  }

  ghost predicate Discharged(s: State, d: Duty, order: Id, fillId: Id)
    requires s.process.Up?
  {
    || (order, fillId) in s.ended || (order, fillId) in d.let
    || InHand(s, order, fillId) || Driven(s, order, fillId)
  }

  /** A resumed order that nothing was signed for yet is no duty. */
  ghost predicate Untaken(s: State, d: Duty)
    requires s.process.Up?
  {
    forall id, f :: id in s.process.tasks && s.process.tasks[id].stage in {WaitAllowance, Reaccept, CheckFilled} ==>
                      (s.process.tasks[id].prepared.order, f) !in d.taken
  }

  ghost predicate DutyOk(s: State, d: Duty) {
    s.process.Up? ==> Untaken(s, d) && forall o, f :: (o, f) in d.taken ==> Discharged(s, d, o, f)
  }

  /** A task joined for an order is driving the acceptance in hand. */
  lemma JoinedDrives(s: State, p: Prepared)
    requires Inv(s) && s.process.Up? && SettlingExact(s.process) && Signable(s, p) && p.order in s.process.settling
    ensures Driven(s, p.order, p.fillId)
  {
    var id :| id in s.process.tasks && s.process.tasks[id].prepared.order == p.order;
    assert TaskOk(s, s.process.tasks[id]);
  }

  lemma SettledDrives(s: State, p: Prepared, stage: Stage)
    requires Inv(s) && s.process.Up? && SettlingExact(s.process) && Signable(s, p)
    ensures Driven(SettleInBackground(s, p, stage), p.order, p.fillId)
  {
    if p.order in s.process.settling {
      JoinedDrives(s, p);
    } else {
      var t := SettleInBackground(s, p, stage);
      assert Started(s.process.nextTask) in t.process.tasks && t.process.tasks[Started(s.process.nextTask)].prepared == p;
    }
  }

  lemma SettledKeepsDriven(s: State, p: Prepared, stage: Stage, order: Id, fillId: Id)
    requires s.process.Up? && UnusedAbove(s.process) && Driven(s, order, fillId)
    ensures Driven(SettleInBackground(s, p, stage), order, fillId)
  {
    var id :| id in s.process.tasks && Pair(s.process.tasks[id].prepared) == (order, fillId);
    var t := SettleInBackground(s, p, stage);
    assert id in t.process.tasks && t.process.tasks[id] == s.process.tasks[id];
  }

  /** Handing the award's acceptance to a settle task keeps every duty. */
  lemma SettlingKeepsDuty(s: State, t: State, d: Duty, p: Prepared, stage: Stage)
    requires Inv(s) && s.process.Up? && SettlingExact(s.process) && DutyOk(s, d) && Signable(s, p) && !Unsent(stage)
    requires s.process.foreground == Posting(p, true) || s.process.foreground == Filling(p)
    requires t.process.Up? && t.process.tasks == s.process.tasks && t.process.settling == s.process.settling
    requires t.process.nextTask == s.process.nextTask && t.ended == s.ended
    ensures DutyOk(ToIdle(SettleInBackground(t, p, stage)), d)
  {
    var u := ToIdle(SettleInBackground(t, p, stage));
    SettledDrives(s, p, stage);
    assert u.process.tasks == SettleInBackground(s, p, stage).process.tasks;
    forall o, f | (o, f) in d.taken ensures Discharged(u, d, o, f) {
      assert Discharged(s, d, o, f);
      if Driven(s, o, f) {
        SettledKeepsDriven(s, p, stage, o, f);
        assert Driven(u, o, f);
      } else if InHand(s, o, f) {
        assert Driven(u, o, f);
      }
    }
  }

  lemma FillKeepsDuty(s: State, e: FillEvent, d: Duty)
    requires Inv(s) && FillEnabled(s, e) && SettlingExact(s.process) && DutyOk(s, d)
    ensures DutyOk(StepFill(s, e), FillDuty(s, e, d))
  {
    var f := s.process.foreground;
    match e
    case PrepareFails => SameTasks(s, StepFill(s, e), d);
    case PrepareSucceeds(_) => SameTasks(s, StepFill(s, e), d);
    case AcceptThrows(_) => SameTasks(s, StepFill(s, e), d);
    case Sign(_) => SignedDuty(s, e, d);
    case Post => PostedDuty(s, d);
    case AcceptThrowsSigned =>
      if f.recorded {
        SettlingKeepsDuty(s, s, d, f.p, Follow);
      } else {
        SameTasks(s, StepFill(s, e), d);
      }
    case FillConfirmed(fault) => SettlingKeepsDuty(s, Record(s, f.p, Filled, fault), d, f.p, Claim);
    case FillUnresolved => SettlingKeepsDuty(s, s, d, f.p, Follow);
    case FillRefused => RefusedDuty(s, d);
  }

  /** Nothing in hand before, the same tasks after. */
  lemma SameTasks(s: State, t: State, d: Duty)
    requires s.process.Up? && t.process.Up? && DutyOk(s, d) && t.process.tasks == s.process.tasks && s.ended <= t.ended
    requires forall o, f :: !InHand(s, o, f)
    ensures DutyOk(t, d)
  {
    forall o, f | (o, f) in d.taken ensures Discharged(t, d, o, f) {
      assert Discharged(s, d, o, f);
      assert Driven(s, o, f) ==> Driven(t, o, f);
    }
  }

  lemma SignedDuty(s: State, e: FillEvent, d: Duty)
    requires Inv(s) && FillEnabled(s, e) && e.Sign? && DutyOk(s, d)
    ensures DutyOk(StepFill(s, e), FillDuty(s, e, d))
  {
    var f := s.process.foreground;
    var t, d' := StepFill(s, e), FillDuty(s, e, d);
    NothingUnsent(s);
    if e.fault.NoFault? && f.persist {
      assert InHand(t, f.p.order, f.p.fillId);
    }
    forall o, g | (o, g) in d'.taken ensures Discharged(t, d', o, g) {
      if (o, g) in d.taken {
        assert Discharged(s, d, o, g);
        assert Driven(s, o, g) ==> Driven(t, o, g);
      }
    }
  }

  /** While an award is in progress every resumed fill has been sent or settled. */
  lemma NothingUnsent(s: State)
    requires Inv(s) && s.process.Up? && !s.process.foreground.Idle?
    ensures forall id :: id in s.process.tasks ==> !Unsent(s.process.tasks[id].stage)
  {
    forall id | id in s.process.tasks ensures !Unsent(s.process.tasks[id].stage) {
      assert TaskOk(s, s.process.tasks[id]);
    }
  }

  lemma PostedDuty(s: State, d: Duty)
    requires Inv(s) && FillEnabled(s, Post) && DutyOk(s, d)
    ensures DutyOk(StepFill(s, Post), FillDuty(s, Post, d))
  {
    var p := s.process.foreground.p;
    var t, d' := StepFill(s, Post), Takes(d, p);
    NothingUnsent(s);
    assert InHand(t, p.order, p.fillId);
    forall o, g | (o, g) in d'.taken ensures Discharged(t, d', o, g) {
      if (o, g) in d.taken {
        assert Discharged(s, d, o, g);
        assert Driven(s, o, g) ==> Driven(t, o, g);
      }
    }
  }

  lemma RefusedDuty(s: State, d: Duty)
    requires FillEnabled(s, FillRefused) && DutyOk(s, d)
    ensures DutyOk(StepFill(s, FillRefused), FillDuty(s, FillRefused, d))
  {
    var t, d' := StepFill(s, FillRefused), FillDuty(s, FillRefused, d);
    forall o, g | (o, g) in d'.taken ensures Discharged(t, d', o, g) {
      assert Discharged(s, d, o, g);
      assert Driven(s, o, g) ==> Driven(t, o, g);
    }
  }

  /** A task that goes on keeps every duty; what it takes on it drives itself. */
  lemma StagedDuty(s: State, t: State, id: TaskId, d: Duty, d': Duty)
    requires s.process.Up? && t.process.Up? && id in s.process.tasks && DutyOk(s, d)
    requires t.process.tasks.Keys == s.process.tasks.Keys && t.process.foreground == s.process.foreground
    requires forall i :: i in s.process.tasks && i != id ==> t.process.tasks[i] == s.process.tasks[i]
    requires var p := s.process.tasks[id].prepared;
             && t.process.tasks[id].prepared == p
             && (forall q :: q in s.ended && q != Pair(p) ==> q in t.ended)
             && (d' == d ||
                 (d' == Takes(d, p)
                  && forall i :: i in s.process.tasks && i != id ==> s.process.tasks[i].prepared.order != p.order))
             && (t.process.tasks[id].stage in {WaitAllowance, Reaccept, CheckFilled} ==>
                   d' == d && s.process.tasks[id].stage in {WaitAllowance, Reaccept, CheckFilled})
    ensures DutyOk(t, d')
  {
    var p := s.process.tasks[id].prepared;
    assert Driven(t, p.order, p.fillId);
    forall o, f | (o, f) in d'.taken ensures Discharged(t, d', o, f) {
      if (o, f) != Pair(p) {
        assert Discharged(s, d, o, f);
        if Driven(s, o, f) {
          var i :| i in s.process.tasks && Pair(s.process.tasks[i].prepared) == (o, f);
          assert i in t.process.tasks && t.process.tasks[i].prepared == s.process.tasks[i].prepared;
        }
      }
    }
  }

  /** A task that ends leaves its own acceptance ended or let go, or was never a duty. */
  lemma EndedDuty(s: State, t: State, id: TaskId, d: Duty, d': Duty)
    requires s.process.Up? && t.process.Up? && id in s.process.tasks && DutyOk(s, d)
    requires t.process.tasks == s.process.tasks - {id} && t.process.foreground == s.process.foreground
    requires s.ended <= t.ended && d'.taken == d.taken && d.let <= d'.let
    requires var p := s.process.tasks[id].prepared;
             Pair(p) in t.ended || Pair(p) in d'.let || Pair(p) !in d.taken
    ensures DutyOk(t, d')
  {
    forall o, f | (o, f) in d'.taken ensures Discharged(t, d', o, f) {
      assert Discharged(s, d, o, f);
      if Driven(s, o, f) && (o, f) != Pair(s.process.tasks[id].prepared) {
        var i :| i in s.process.tasks && Pair(s.process.tasks[i].prepared) == (o, f);
        assert i in t.process.tasks && t.process.tasks[i] == s.process.tasks[i];
      }
    }
  }

  /** A step of a task changes no other, and not the award in hand. */
  ghost predicate OnlyOwn(s: State, t: State, id: TaskId)
    requires s.process.Up? && id in s.process.tasks
  {
    && t.process.Up? && t.process.foreground == s.process.foreground
    && (if id in t.process.tasks then
          && t.process.tasks.Keys == s.process.tasks.Keys
          && t.process.tasks[id].prepared == s.process.tasks[id].prepared
          && (forall i :: i in s.process.tasks && i != id ==> t.process.tasks[i] == s.process.tasks[i])
          && (forall q :: q in s.ended && q != Pair(s.process.tasks[id].prepared) ==> q in t.ended)
        else t.process.tasks == s.process.tasks - {id} && s.ended <= t.ended)
  }

  lemma TaskOnlyOwn(s: State, id: TaskId, e: TaskEvent)
    requires TaskEnabled(s, id, e)
    ensures OnlyOwn(s, StepTask(s, id, e), id)
  {
  }

  lemma TaskKeepsDuty(s: State, id: TaskId, e: TaskEvent, d: Duty)
    requires Inv(s) && TaskEnabled(s, id, e) && DutyOk(s, d)
    ensures DutyOk(StepTask(s, id, e), TaskDuty(s, id, e, d))
  {
    var t, d' := StepTask(s, id, e), TaskDuty(s, id, e, d);
    TaskOnlyOwn(s, id, e);
    if id in t.process.tasks {
      OthersDiffer(s, id);
      StagedDuty(s, t, id, d, d');
    } else {
      EndedDuty(s, t, id, d, d');
    }
  }

  lemma OthersDiffer(s: State, id: TaskId)
    requires Inv(s) && s.process.Up? && id in s.process.tasks
    ensures forall i :: i in s.process.tasks && i != id ==> s.process.tasks[i].prepared.order != s.process.tasks[id].prepared.order
  {
  }

  lemma RestartTakes(s: State, awarded: map<Id, Option<Id>>)
    requires DiskOk(s) && Enabled(s, Restart(awarded))
    ensures DutyOk(Step(s, Restart(awarded)), StepDuty(s, Restart(awarded), Duty({}, {})))
  {
    var t, d := Step(s, Restart(awarded)), StepDuty(s, Restart(awarded), Duty({}, {}));
    forall o, f | (o, f) in d.taken ensures Discharged(t, d, o, f) {
      assert Resumed(o) in t.process.tasks && Pair(t.process.tasks[Resumed(o)].prepared) == (o, f);
    }
  }

  lemma StepKeepsDuty(s: State, e: Event, d: Duty)
    requires Inv(s) && SettlingExact(s.process) && DutyOk(s, d)
    ensures DutyOk(Step(s, e), StepDuty(s, e, d))
  {
    if Enabled(s, e) {
      match e
      case Restart(awarded) => RestartTakes(s, awarded);
      case FillStep(fill) => FillKeepsDuty(s, fill, d);
      case TaskStep(id, task) => TaskKeepsDuty(s, id, task, d);
      case Deliver(award) => SameTasks(s, Step(s, e), d);
      case StartFeed => KeepsHand(s, Step(s, e), d);
      case Bid(_) => KeepsHand(s, Step(s, e), d);
      case Prune(_) => KeepsHand(s, Step(s, e), d);
      case Crash =>
    }
  }

  lemma KeepsHand(s: State, t: State, d: Duty)
    requires s.process.Up? && t.process.Up? && DutyOk(s, d)
    requires t.process.tasks == s.process.tasks && t.process.foreground == s.process.foreground && t.ended == s.ended
    ensures DutyOk(t, d)
  {
    forall o, f | (o, f) in d.taken ensures Discharged(t, d, o, f) {
      assert Discharged(s, d, o, f);
      assert Driven(s, o, f) ==> Driven(t, o, f);
    }
  }

  lemma {:induction false} RunKeepsDuty(s: State, events: seq<Event>)
    requires Init(s)
    ensures DutyOk(Run(s, events), DutyAfter(s, events))
  {
    if events != [] {
      var front := events[..|events| - 1];
      RunKeepsDuty(s, front);
      RunKeeps(s, front);
      SettlingIsExact(s, front);
      StepKeepsDuty(Run(s, front), events[|events| - 1], DutyAfter(s, front));
    }
  }

  /**
   Over all runs: an acceptance a process has resumed, recorded or posted is in the award in hand or
   has a running settle task under its own fillId, until its claim loop returns, throws or is
   aborted, or its fill is refused for good.
   */
  lemma OwedIsDriven(s: State, events: seq<Event>, order: Id, fillId: Id)
    requires Init(s) && Run(s, events).process.Up? && (order, fillId) in DutyAfter(s, events).taken
    ensures var t := Run(s, events);
            || (order, fillId) in t.ended || (order, fillId) in DutyAfter(s, events).let
            || InHand(t, order, fillId)
            || exists id :: id in t.process.tasks && Pair(t.process.tasks[id].prepared) == (order, fillId)
  {
    RunKeepsDuty(s, events);
    assert Discharged(Run(s, events), DutyAfter(s, events), order, fillId);
  }

  // A claim loop runs only once the fill has been driven, and a fill only once it may be.

  /** Tasks that may drive their fill: allowed to, or joined to an accepted award whose fill did not land. */
  ghost function MayFollow(s: State, e: Event, may: set<TaskId>): set<TaskId> {
    if !Enabled(s, e) then may else
      match e
      case Crash => {}
      case TaskStep(id, AllowanceStands) => may + {id}
      case TaskStep(id, TaskPost) => may
      case FillStep(AcceptThrowsSigned) => may + {Started(s.process.nextTask)}
      case FillStep(FillUnresolved) => may + {Started(s.process.nextTask)}
      case _ => may
  }

  /** Tasks whose fill has landed, cannot be read, or has been followed to its end. */
  ghost function MayClaim(s: State, e: Event, may: set<TaskId>): set<TaskId> {
    if !Enabled(s, e) then may else
      match e
      case Crash => {}
      case Restart(_) => set o | o in s.disk && s.disk[o].phase.Filled? :: Resumed(o)
      case TaskStep(id, TaskReadsFilled(Landed, _)) => may + {id}
      case TaskStep(id, TaskReadsFilled(Unreadable, _)) => may + {id}
      case TaskStep(id, TaskFollowed(_, _)) => may + {id}
      case FillStep(FillConfirmed(_)) => may + {Started(s.process.nextTask)}
      case _ => may
  }

  ghost function FollowersAfter(s: State, events: seq<Event>): set<TaskId> {
    if events == [] then {} else
      MayFollow(Run(s, events[..|events| - 1]), events[|events| - 1], FollowersAfter(s, events[..|events| - 1]))
  }

  ghost function ClaimersAfter(s: State, events: seq<Event>): set<TaskId> {
    if events == [] then {} else
      MayClaim(Run(s, events[..|events| - 1]), events[|events| - 1], ClaimersAfter(s, events[..|events| - 1]))
  }

  /** `waited`: the allowance has stood, for the resumed tasks past every wait. */
  ghost predicate StagesOk(s: State, followers: set<TaskId>, claimers: set<TaskId>) {
    s.process.Up? ==>
      forall id :: id in s.process.tasks ==>
        match s.process.tasks[id].stage
        case WaitAllowance => true
        case Repost => true
        case WaitStanding => true
        case Reaccept => id in followers
        case CheckFilled => id in followers
        case Reposting => id in followers
        case Follow => id in followers
        case Claim => id in claimers
  }

  lemma SettledStages(s: State, p: Prepared, stage: Stage, followers: set<TaskId>, claimers: set<TaskId>)
    requires s.process.Up? && StagesOk(s, followers, claimers) && UnusedAbove(s.process)
    requires stage.Follow? || stage.Claim?
    ensures var next := {Started(s.process.nextTask)};
            StagesOk(ToIdle(SettleInBackground(s, p, stage)), if stage.Follow? then followers + next else followers,
                     if stage.Claim? then claimers + next else claimers)
  {
  }

  lemma SameStages(s: State, t: State, followers: set<TaskId>, claimers: set<TaskId>)
    requires s.process.Up? && StagesOk(s, followers, claimers) && t.process.Up? && t.process.tasks == s.process.tasks
    ensures StagesOk(t, followers, claimers)
  {
  }

  lemma FillStagesOk(s: State, e: FillEvent, followers: set<TaskId>, claimers: set<TaskId>)
    requires FillEnabled(s, e) && StagesOk(s, followers, claimers) && UnusedAbove(s.process)
    ensures StagesOk(StepFill(s, e), MayFollow(s, FillStep(e), followers), MayClaim(s, FillStep(e), claimers))
  {
    var f := s.process.foreground;
    match e
    case AcceptThrowsSigned =>
      if f.recorded {
        SettledStages(s, f.p, Follow, followers, claimers);
      } else {
        StagesGrow(ToIdle(s), followers, MayFollow(s, FillStep(e), followers), claimers);
      }
    case FillConfirmed(fault) => SettledStages(Record(s, f.p, Filled, fault), f.p, Claim, followers, claimers);
    case FillUnresolved => SettledStages(s, f.p, Follow, followers, claimers);
    case _ =>
      SameTasksAfter(s, e);
      SameStages(s, StepFill(s, e), followers, claimers);
  }

  lemma SameTasksAfter(s: State, e: FillEvent)
    requires FillEnabled(s, e) && !e.AcceptThrowsSigned? && !e.FillConfirmed? && !e.FillUnresolved?
    ensures StepFill(s, e).process.Up? && StepFill(s, e).process.tasks == s.process.tasks
    ensures forall may :: MayFollow(s, FillStep(e), may) == may && MayClaim(s, FillStep(e), may) == may
  {
    match e
    case PrepareFails =>
    case PrepareSucceeds(_) =>
    case AcceptThrows(_) =>
    case Sign(_) =>
    case Post =>
    case FillRefused =>
  }

  lemma StagesGrow(s: State, followers: set<TaskId>, more: set<TaskId>, claimers: set<TaskId>)
    requires s.process.Up? && StagesOk(s, followers, claimers) && followers <= more
    ensures StagesOk(s, more, claimers)
  {
  }

  lemma TaskStagesOk(s: State, id: TaskId, e: TaskEvent, followers: set<TaskId>, claimers: set<TaskId>)
    requires TaskEnabled(s, id, e) && StagesOk(s, followers, claimers)
    ensures StagesOk(StepTask(s, id, e), MayFollow(s, TaskStep(id, e), followers), MayClaim(s, TaskStep(id, e), claimers))
  {
    TaskOnlyOwn(s, id, e);
  }

  lemma {:induction false} RunStagesOk(s: State, events: seq<Event>)
    requires Init(s)
    ensures StagesOk(Run(s, events), FollowersAfter(s, events), ClaimersAfter(s, events))
  {
    if events != [] {
      var front, e := events[..|events| - 1], events[|events| - 1];
      RunStagesOk(s, front);
      RunKeeps(s, front);
      if Enabled(Run(s, front), e) {
        match e
        case FillStep(fill) => FillStagesOk(Run(s, front), fill, FollowersAfter(s, front), ClaimersAfter(s, front));
        case TaskStep(id, task) => TaskStagesOk(Run(s, front), id, task, FollowersAfter(s, front), ClaimersAfter(s, front));
        case _ =>
      }
    }
  }

  /**
   Over all runs: a resumed order is accepted anew, and any resumed fill driven, only after its wait
   for the allowance; and a claim loop runs only for a fill confirmed, resumed as filled, or driven to
   its end, or one that cannot be read.
   */
  lemma ClaimsFollowFills(s: State, events: seq<Event>, id: TaskId)
    requires Init(s) && Run(s, events).process.Up? && id in Run(s, events).process.tasks
    ensures var stage := Run(s, events).process.tasks[id].stage;
            && (stage in {Reaccept, Reposting, CheckFilled, Follow} ==> id in FollowersAfter(s, events))
            && (stage.Claim? ==> id in ClaimersAfter(s, events))
  {
    RunStagesOk(s, events);
  }

  // One auction, one fillId; and only auctions this solver bid on.

  /** The auctions of this process's bids and of the orders it resumed. */
  ghost function OwnAuctions(s: State, events: seq<Event>): set<Id> {
    if events == [] then {} else
      var t, own, e := Run(s, events[..|events| - 1]), OwnAuctions(s, events[..|events| - 1]), events[|events| - 1];
      if !Enabled(t, e) then own else
        match e
        case Restart(_) => set o | o in t.disk :: t.disk[o].prepared.auction
        case Bid(auction) => own + {auction}
        case _ => own
  }

  ghost predicate InProgress(u: Process, auction: Id)
    requires u.Up?
  {
    match u.foreground
    case Idle => false
    case Preparing(award) => award.auction == auction
    case InAccept(p, _, _) => p.auction == auction
    case Posting(p, _) => p.auction == auction
    case Filling(p) => p.auction == auction
  }

  ghost predicate AuctionsOk(s: State, own: set<Id>) {
    s.process.Up? ==>
      var u := s.process;
      && u.bids <= own && u.awarded.Keys <= own
      && (forall a :: InProgress(u, a) ==> a in own)
      && (u.foreground.Preparing? && u.foreground.award.auction in u.awarded && u.awarded[u.foreground.award.auction].Some? ==>
            u.foreground.award.fillId == u.awarded[u.foreground.award.auction])
  }

  /** Only a `prepare` that returned binds an auction. */
  lemma PreparedBinds(s: State, fault: Fault)
    requires FillEnabled(s, PrepareSucceeds(fault))
    ensures var u, v, award := s.process, StepFill(s, PrepareSucceeds(fault)).process, s.process.foreground.award;
            && v.Up? && v.bids == u.bids && (v.awarded == u.awarded || v.awarded == u.awarded[award.auction := award.fillId])
            && forall a :: InProgress(v, a) ==> a == award.auction
  {
    var order := s.process.foreground.award.order.value;
    if order in s.held {
    } else if order in s.process.mem {
    } else {
    }
  }

  lemma OthersBindNothing(s: State, e: FillEvent)
    requires FillEnabled(s, e) && !e.PrepareSucceeds?
    ensures var u, v := s.process, StepFill(s, e).process;
            && v.Up? && v.bids == u.bids && v.awarded == u.awarded && !v.foreground.Preparing?
            && forall a :: InProgress(v, a) ==> InProgress(u, a)
  {
    match e
    case PrepareFails =>
    case AcceptThrows(_) =>
    case Sign(_) =>
    case Post =>
    case AcceptThrowsSigned =>
    case FillConfirmed(_) =>
    case FillUnresolved =>
    case FillRefused =>
  }

  lemma FillAuctionsOk(s: State, e: FillEvent, own: set<Id>)
    requires FillEnabled(s, e) && AuctionsOk(s, own)
    ensures AuctionsOk(StepFill(s, e), own)
  {
    if e.PrepareSucceeds? {
      PreparedBinds(s, e.fault);
      assert InProgress(s.process, s.process.foreground.award.auction);
      PreparedForeground(s, e.fault);
    } else {
      OthersBindNothing(s, e);
    }
  }

  lemma PreparedForeground(s: State, fault: Fault)
    requires FillEnabled(s, PrepareSucceeds(fault))
    ensures var v := StepFill(s, PrepareSucceeds(fault)).process; v.Up? && (v.foreground.Idle? || v.foreground.InAccept?)
  {
  }

  lemma TaskAuctionsOk(s: State, id: TaskId, e: TaskEvent, own: set<Id>)
    requires TaskEnabled(s, id, e) && AuctionsOk(s, own)
    ensures AuctionsOk(StepTask(s, id, e), own)
  {
    var u, v := s.process, StepTask(s, id, e).process;
    TaskOnlyOwn(s, id, e);
    assert v.bids == u.bids && (v.awarded == u.awarded || v.awarded == u.awarded - {u.tasks[id].prepared.auction});
  }

  lemma RestartAuctionsOk(s: State, awarded: map<Id, Option<Id>>)
    requires AwardedFromDisk(s.disk, awarded)
    ensures AuctionsOk(StepRestart(s, awarded), set o | o in s.disk :: s.disk[o].prepared.auction)
  {
  }

  lemma {:induction false} RunAuctionsOk(s: State, events: seq<Event>)
    requires Init(s)
    ensures AuctionsOk(Run(s, events), OwnAuctions(s, events))
  {
    if events != [] {
      var front, e := events[..|events| - 1], events[|events| - 1];
      RunAuctionsOk(s, front);
      var t := Run(s, front);
      if Enabled(t, e) {
        match e
        case Restart(awarded) => RestartAuctionsOk(t, awarded);
        case FillStep(fill) => FillAuctionsOk(t, fill, OwnAuctions(s, front));
        case TaskStep(id, task) => TaskAuctionsOk(t, id, task, OwnAuctions(s, front));
        case _ =>
      }
    }
  }

  /** Over all runs an award is worked on only for an auction this process bid on, or of an order it resumed. */
  lemma OnlyOwnAuctions(s: State, events: seq<Event>, auction: Id)
    requires Init(s) && Run(s, events).process.Up? && InProgress(Run(s, events).process, auction)
    ensures auction in OwnAuctions(s, events)
  {
    RunAuctionsOk(s, events);
  }

  /**
   An award is taken up if and only if this process bid for it or accepted it, its order is not held,
   and it names the fillId the auction is bound to and the one its order is on record under, if any.
   Otherwise nothing changes.
   */
  lemma AwardTakenExactly(s: State, award: Award)
    requires Enabled(s, Deliver(award))
    ensures var u, t := s.process, Step(s, Deliver(award));
            var taken := && (award.auction in u.bids || award.auction in u.awarded)
                         && (award.order.Some? ==> award.order.value !in s.held)
                         && (forall f :: award.auction in u.awarded && u.awarded[award.auction] == Some(f) ==> award.fillId == Some(f))
                         && (forall o :: award.order == Some(o) && o in u.mem ==> award.fillId == Some(u.mem[o].prepared.fillId));
            if taken then t.process.Up? && t.process.foreground == Preparing(award) else t == s
  {
  }

  /** What ends an auction's binding to the fillId accepted in it: its settle task ending, or a bid made on it anew. */
  ghost predicate Unbinds(s: State, e: Event, auction: Id)
    requires s.process.Up?
  {
    match e
    case Crash => true
    case Deliver(award) => award.auction == auction && auction in s.process.bids
    case TaskStep(id, TaskReadsFilled(NotLanded, _)) => id in s.process.tasks && s.process.tasks[id].prepared.auction == auction
    case TaskStep(id, ClaimEnds(_, _)) => id in s.process.tasks && s.process.tasks[id].prepared.auction == auction
    case _ => false
  }

  /** Over all runs an auction bound to one fillId is never bound to another, and stays bound until one of these. */
  lemma BindingNeverChanges(s: State, events: seq<Event>, e: Event, auction: Id, fillId: Id)
    requires Init(s) && Run(s, events).process.Up?
    requires auction in Run(s, events).process.awarded && Run(s, events).process.awarded[auction] == Some(fillId)
    ensures var t := Run(s, events);
            var v := Step(t, e).process;
            && (v.Up? && auction in v.awarded && v.awarded[auction].Some? ==> v.awarded[auction] == Some(fillId))
            && (!Unbinds(t, e, auction) ==> v.Up? && auction in v.awarded && v.awarded[auction] == Some(fillId))
  {
    RunAuctionsOk(s, events);
    var t := Run(s, events);
    if Enabled(t, e) {
      match e
      case TaskStep(id, task) => TaskBinding(t, id, task, auction);
      case FillStep(fill) => FillBinding(t, fill, auction);
      case _ =>
    }
  }

  lemma FillBinding(s: State, e: FillEvent, auction: Id)
    requires FillEnabled(s, e) && auction in s.process.awarded && s.process.awarded[auction].Some?
    requires s.process.foreground.Preparing? && s.process.foreground.award.auction == auction ==>
               s.process.foreground.award.fillId == s.process.awarded[auction]
    ensures var v := StepFill(s, e).process; v.Up? && auction in v.awarded && v.awarded[auction] == s.process.awarded[auction]
  {
    if e.PrepareSucceeds? {
      PreparedBinds(s, e.fault);
    } else {
      OthersBindNothing(s, e);
    }
  }

  lemma TaskBinding(s: State, id: TaskId, e: TaskEvent, auction: Id)
    requires TaskEnabled(s, id, e) && auction in s.process.awarded
    ensures var v := StepTask(s, id, e).process;
            && v.Up? && (auction in v.awarded ==> v.awarded[auction] == s.process.awarded[auction])
            && (auction !in v.awarded ==> Unbinds(s, TaskStep(id, e), auction))
  {
  }

  // The record.

  /** The record of an order once an award's or a task's write has gone through. */
  ghost predicate Says(s: State, order: Id, fillId: Id, phase: Phase)
    requires s.process.Up?
  {
    && order in s.process.mem && order in s.disk && s.process.mem[order] == s.disk[order]
    && s.disk[order].phase == phase && s.disk[order].prepared.fillId == fillId
  }

  ghost predicate SaysNothing(s: State, order: Id)
    requires s.process.Up?
  {
    order !in s.process.mem && order !in s.disk
  }

  /** A landed fill is recorded, and a returned claim loop, a refused award and a dropped resumption are forgotten. */
  lemma RecordFollowsOutcome(s: State, e: Event)
    requires Inv(s) && Enabled(s, e)
    ensures var t := Step(s, e);
            match e
            case FillStep(Sign(NoFault)) =>
              s.process.foreground.persist ==> Says(t, s.process.foreground.p.order, s.process.foreground.p.fillId, Accepted)
            case FillStep(AcceptThrows(NoFault)) =>
              s.process.foreground.wroteAccepting && s.process.foreground.p.order in s.process.mem ==>
                SaysNothing(t, s.process.foreground.p.order)
            case FillStep(FillConfirmed(NoFault)) => Says(t, s.process.foreground.p.order, s.process.foreground.p.fillId, Filled)
            case TaskStep(id, task) =>
              var p := s.process.tasks[id].prepared;
              (match task
               case TaskSign(NoFault) => Says(t, p.order, p.fillId, Accepted)
               case TaskReadsFilled(Landed, NoFault) => Says(t, p.order, p.fillId, Filled)
               case TaskReadsFilled(NotLanded, NoFault) => SaysNothing(t, p.order)
               case TaskFollowed(true, NoFault) => Says(t, p.order, p.fillId, Filled)
               case ClaimEnds(Returned, NoFault) => p.order in s.process.mem ==> SaysNothing(t, p.order)
               case _ => true)
            case _ => true
  {
    if e.TaskStep? {
      assert TaskOk(s, s.process.tasks[e.id]);
    }
  }

  /** An order being accepted is on record, unless a claim loop of it has returned meanwhile. */
  ghost predicate Recording(s: State) {
    s.process.Up? && s.process.foreground.InAccept? ==>
      var order, wrote := s.process.foreground.p.order, s.process.foreground.wroteAccepting;
      (order in s.process.mem && (wrote ==> order in s.disk)) || exists f :: (order, f) in s.ended
  }

  lemma FillRecording(s: State, e: FillEvent)
    requires FillEnabled(s, e) && Recording(s)
    ensures Recording(StepFill(s, e))
  {
  }

  lemma TaskRecording(s: State, id: TaskId, e: TaskEvent)
    requires Inv(s) && TaskEnabled(s, id, e) && Recording(s)
    ensures Recording(StepTask(s, id, e))
  {
    assert TaskOk(s, s.process.tasks[id]);
    if s.process.foreground.InAccept? {
      var order := s.process.foreground.p.order;
      assert forall f :: (order, f) in s.ended ==> (order, f) in StepTask(s, id, e).ended;
    }
  }

  lemma {:induction false} RunRecording(s: State, events: seq<Event>)
    requires Init(s)
    ensures Recording(Run(s, events))
  {
    if events != [] {
      var front, e := events[..|events| - 1], events[|events| - 1];
      RunRecording(s, front);
      RunKeeps(s, front);
      if Enabled(Run(s, front), e) {
        match e
        case FillStep(fill) => FillRecording(Run(s, front), fill);
        case TaskStep(id, task) => TaskRecording(Run(s, front), id, task);
        case _ =>
      }
    }
  }

  /**
   Over all runs, at each signature of an award: the order is on record in memory, and on disk if this
   award put it there, unless a claim loop of it has returned meanwhile. Nothing is signed unrecorded.
   */
  lemma RecordedBeforeSigned(s: State, events: seq<Event>, fault: Fault)
    requires Init(s) && Enabled(Run(s, events), FillStep(Sign(fault)))
    ensures var t := Run(s, events);
            var f := t.process.foreground;
            (f.p.order in t.process.mem && (f.wroteAccepting ==> f.p.order in t.disk)) || exists g :: (f.p.order, g) in t.ended
  {
    RunRecording(s, events);
  }

  // Only what was accepted is driven, and what is accepted gets somewhere.

  /** A fill on its way, by a task or by the award in hand, is of an acceptance taken on. */
  ghost predicate DrivenTaken(s: State, d: Duty) {
    s.process.Up? ==>
      && (forall id :: id in s.process.tasks && s.process.tasks[id].stage in {Repost, WaitStanding, Follow} ==>
            Pair(s.process.tasks[id].prepared) in d.taken)
      && (s.process.foreground.Posting? && s.process.foreground.recorded ==> Pair(s.process.foreground.p) in d.taken)
      && (s.process.foreground.Filling? ==> Pair(s.process.foreground.p) in d.taken)
  }

  lemma SettledTaken(s: State, p: Prepared, stage: Stage, d: Duty)
    requires s.process.Up? && DrivenTaken(s, d) && (stage.Follow? ==> Pair(p) in d.taken)
    requires stage.Follow? || stage.Claim?
    ensures DrivenTaken(ToIdle(SettleInBackground(s, p, stage)), d)
  {
  }

  lemma FillTaken(s: State, e: FillEvent, d: Duty)
    requires FillEnabled(s, e) && DrivenTaken(s, d)
    ensures DrivenTaken(StepFill(s, e), FillDuty(s, e, d))
  {
    var f := s.process.foreground;
    match e
    case AcceptThrowsSigned =>
      if f.recorded {
        SettledTaken(s, f.p, Follow, d);
      }
    case FillConfirmed(fault) => SettledTaken(Record(s, f.p, Filled, fault), f.p, Claim, d);
    case FillUnresolved => SettledTaken(s, f.p, Follow, d);
    case Sign(fault) => SignedTaken(s, fault, d);
    case PrepareSucceeds(fault) =>
      SameTasksAfter(s, e);
      PreparedForeground(s, fault);
    case Post => SameTasksAfter(s, e);
    case PrepareFails => SameTasksAfter(s, e);
    case AcceptThrows(_) => SameTasksAfter(s, e);
    case FillRefused => SameTasksAfter(s, e);
  }

  lemma SignedTaken(s: State, fault: Fault, d: Duty)
    requires FillEnabled(s, Sign(fault)) && DrivenTaken(s, d)
    ensures DrivenTaken(StepSign(s, fault), FillDuty(s, Sign(fault), d))
  {
    assert StepSign(s, fault).process.tasks == s.process.tasks;
  }

  lemma TaskTaken(s: State, id: TaskId, e: TaskEvent, d: Duty)
    requires TaskEnabled(s, id, e) && DrivenTaken(s, d)
    ensures DrivenTaken(StepTask(s, id, e), TaskDuty(s, id, e, d))
  {
    TaskOnlyOwn(s, id, e);
    assert d.taken <= TaskDuty(s, id, e, d).taken;
  }

  lemma RestartTaken(s: State, awarded: map<Id, Option<Id>>, d: Duty)
    requires DiskOk(s) && Enabled(s, Restart(awarded))
    ensures DrivenTaken(StepRestart(s, awarded), StepDuty(s, Restart(awarded), d))
  {
  }

  lemma {:induction false} RunTaken(s: State, events: seq<Event>)
    requires Init(s)
    ensures DrivenTaken(Run(s, events), DutyAfter(s, events))
  {
    if events != [] {
      var front, e := events[..|events| - 1], events[|events| - 1];
      RunTaken(s, front);
      RunKeeps(s, front);
      if Enabled(Run(s, front), e) {
        match e
        case Restart(awarded) => RestartTaken(Run(s, front), awarded, DutyAfter(s, front));
        case FillStep(fill) => FillTaken(Run(s, front), fill, DutyAfter(s, front));
        case TaskStep(id, task) => TaskTaken(Run(s, front), id, task, DutyAfter(s, front));
        case _ =>
      }
    }
  }

  /**
   Over all runs a fill is sent, by an award or by a settle task, only for an acceptance this process
   resumed as accepted, recorded or posted. One still being accepted is never filled ahead of that.
   */
  lemma OnlyAcceptedIsDriven(s: State, events: seq<Event>)
    requires Init(s) && Run(s, events).process.Up?
    ensures var u := Run(s, events).process;
            && (u.foreground.Filling? ==> Pair(u.foreground.p) in DutyAfter(s, events).taken)
            && forall id :: id in u.tasks && u.tasks[id].stage.Follow? ==> Pair(u.tasks[id].prepared) in DutyAfter(s, events).taken
  {
    RunTaken(s, events);
  }

  /**
   A bid answers for one award: taking it up uses the bid, and if `prepare` then fails the award may be
   delivered again, until its auction is pruned.
   */
  lemma BidAnswersOnce(s: State, award: Award)
    requires Enabled(s, Deliver(award)) && award.auction in s.process.bids
    requires Step(s, Deliver(award)).process.Up? && Step(s, Deliver(award)).process.foreground == Preparing(award)
    ensures var t := Step(Step(s, Deliver(award)), FillStep(PrepareFails));
            && t.process.Up? && t.process.bids == s.process.bids - {award.auction}
            && Step(t, Deliver(award)).process.Up? && Step(t, Deliver(award)).process.foreground == Preparing(award)
            && var v := Step(t, Prune(award.auction)); Step(v, Deliver(award)) == v
  {
  }

  /**
   A signature reaches the venue: once it is made, and recorded if it has to be, the POST is next and then
   the fill; and should `accept` throw instead, the acceptance this award recorded has a settle task.
   */
  lemma SignedIsPosted(s: State)
    requires s.process.Up? && s.process.foreground.InAccept? && MaySign(s.process, s.process.foreground.p)
    ensures var f := s.process.foreground;
            var t := Step(s, FillStep(Sign(NoFault)));
            var posted, thrown := Step(t, FillStep(Post)), Step(t, FillStep(AcceptThrowsSigned));
            && posted.process.Up? && posted.process.foreground == Filling(f.p) && Pair(f.p) in posted.posted
            && thrown.process.Up? && thrown.process.foreground.Idle? && thrown.posted == s.posted
            && if f.persist then f.p.order in thrown.process.settling else thrown.process.tasks == s.process.tasks
  {
  }

  /** The steps a task has at most ahead of it when nothing is accepted anew. */
  function StepsLeft(stage: Stage): nat {
    match stage
    case WaitAllowance => 3
    case Reaccept => 2
    case CheckFilled => 1
    case Repost => 4
    case WaitStanding => 3
    case Reposting => 3
    case Follow => 2
    case Claim => 1
  }

  function EndingStep(stage: Stage): TaskEvent {
    match stage
    case WaitAllowance => AllowanceStands
    case Reaccept => TaskRefused
    case CheckFilled => TaskReadsFilled(NotLanded, NoFault)
    case Repost => TaskReposts(false)
    case WaitStanding => AllowanceStands
    case Reposting => TaskPost
    case Follow => TaskFollowed(false, NoFault)
    case Claim => ClaimEnds(Returned, NoFault)
  }

  lemma EndingMoves(s: State, id: TaskId)
    requires s.process.Up? && id in s.process.tasks
    ensures var stage := s.process.tasks[id].stage;
            var t := Step(s, TaskStep(id, EndingStep(stage)));
            && t.process.Up? && (id in t.process.tasks ==> StepsLeft(t.process.tasks[id].stage) < StepsLeft(stage))
  {
    match s.process.tasks[id].stage
    case CheckFilled =>
    case Claim =>
    case Follow =>
    case Reposting =>
    case Repost =>
    case _ =>
  }

  lemma {:induction false} RunCons(s: State, e: Event, rest: seq<Event>)
    ensures Run(s, [e] + rest) == Run(Step(s, e), rest)
  {
    if rest == [] {
      assert ([e] + rest)[..0] == [];
    } else {
      RunCons(s, e, rest[..|rest| - 1]);
      assert ([e] + rest)[..|rest|] == [e] + rest[..|rest| - 1];
    }
  }

  /** No settle task is ever stuck: whatever it waits for, it can still come to its end. */
  lemma {:induction false} TaskCanEnd(s: State, id: TaskId) returns (events: seq<Event>)
    requires s.process.Up? && id in s.process.tasks
    ensures Run(s, events).process.Up? && id !in Run(s, events).process.tasks
    decreases StepsLeft(s.process.tasks[id].stage)
  {
    var e := TaskStep(id, EndingStep(s.process.tasks[id].stage));
    var rest: seq<Event> := [];
    EndingMoves(s, id);
    if id in Step(s, e).process.tasks {
      rest := TaskCanEnd(Step(s, e), id);
    }
    RunCons(s, e, rest);
    events := [e] + rest;
  }

  /**
   A resumed order whose accept failed is dropped exactly when its fill is read as not landed; landed, or
   unreadable, it goes to the claim loop, and stays on record.
   */
  lemma DroppedExactly(s: State, id: TaskId, reading: Reading, fault: Fault)
    requires Inv(s) && TaskEnabled(s, id, TaskReadsFilled(reading, fault))
    ensures var p, t := s.process.tasks[id].prepared, Step(s, TaskStep(id, TaskReadsFilled(reading, fault)));
            && t.process.Up?
            && if reading.NotLanded? then id !in t.process.tasks && p.order !in t.process.settling
               else id in t.process.tasks && t.process.tasks[id].stage.Claim? && p.order in t.process.mem
                    && t.process.mem[p.order].prepared.fillId == p.fillId
  {
    assert TaskOk(s, s.process.tasks[id]);
  }

  /** An acceptance recorded by an award, or posted by a settle task, is owed anew though its last claim loop returned. */
  lemma AcceptedAnew(s: State, e: Event)
    requires Enabled(s, e)
    requires || (e == FillStep(Sign(NoFault)) && s.process.foreground.persist)
             || (e.TaskStep? && e.task in {TaskPost, TaskReposts(true)})
    ensures var p := if e.FillStep? then s.process.foreground.p else s.process.tasks[e.id].prepared;
            Pair(p) !in Step(s, e).ended && (e.TaskStep? ==> Pair(p) in Step(s, e).posted)
  {
  }

  /** Any await of `fill(award)` may fail, and the call is then over, so that the next award can be taken. */
  lemma CallCanEnd(s: State)
    requires s.process.Up? && !s.process.foreground.Idle?
    ensures var e := match s.process.foreground
                     case Preparing(_) => PrepareFails
                     case InAccept(_, _, _) => AcceptThrows(NoFault)
                     case Posting(_, _) => AcceptThrowsSigned
                     case _ => FillRefused;
            Step(s, FillStep(e)).process.Up? && Step(s, FillStep(e)).process.foreground.Idle?
  {
  }

  /** However it ends, the call is over; and an accepted fill that is confirmed, or not known to have landed, is being settled. */
  lemma CallEnds(s: State, e: FillEvent)
    requires FillEnabled(s, e) && !e.PrepareSucceeds? && !e.Sign? && !e.Post?
    ensures var u := StepFill(s, e).process;
            && u.Up? && u.foreground.Idle?
            && (e.FillConfirmed? || e.FillUnresolved? ==> s.process.foreground.p.order in u.settling)
  {
  }

  /**
   A bid is answered by an award for its auction, of an order neither held nor on record, unless the bid
   was pruned first; pruning, at any time, forgets the bid and an award not accepted, and nothing else.
   */
  lemma BidIsAnswered(s: State, award: Award)
    requires s.process.Up? && s.process.bidding && award.auction !in s.process.awarded
    requires award.order.Some? ==> award.order.value !in s.held && award.order.value !in s.process.mem
    ensures var t := Step(s, Bid(award.auction));
            var v := Step(t, Prune(award.auction));
            && (s.process.foreground.Idle? ==>
                  && Step(t, Deliver(award)).process.Up? && Step(t, Deliver(award)).process.foreground == Preparing(award)
                  && Step(v, Deliver(award)) == v)
            && v == s.(process := s.process.(bids := s.process.bids - {award.auction}))
  {
    assert s.process.bids + {award.auction} - {award.auction} == s.process.bids - {award.auction};
  }

  lemma PruneForgetsUnaccepted(s: State, auction: Id)
    requires s.process.Up? && s.process.bidding
    ensures var t := Step(s, Prune(auction));
            && t.process.Up? && t.process.bids == s.process.bids - {auction} && t.process.tasks == s.process.tasks
            && t.process.foreground == s.process.foreground && t.disk == s.disk
            && t.process.awarded == (if auction in s.process.awarded && s.process.awarded[auction] == None
                                     then s.process.awarded - {auction} else s.process.awarded)
  {
  }

  /**
   A restart resumes every order on disk and no other, each where its phase left it, with its auction bound;
   nothing is bid on before the feed starts.
   */
  lemma RestartResumesEvery(s: State, awarded: map<Id, Option<Id>>, order: Id)
    requires Enabled(s, Restart(awarded))
    ensures var u := Step(s, Restart(awarded)).process;
            && u.Up? && u.mem == s.disk && u.bids == {} && !u.bidding && u.foreground.Idle?
            && (order in s.disk <==> Resumed(order) in u.tasks) && (order in s.disk <==> order in u.settling)
            && (forall n :: Started(n) !in u.tasks)
            && (order in s.disk ==>
                  && u.tasks[Resumed(order)].prepared == s.disk[order].prepared
                  && s.disk[order].prepared.auction in u.awarded && u.awarded[s.disk[order].prepared.auction].Some?
                  && (u.tasks[Resumed(order)].stage.WaitAllowance? <==> s.disk[order].phase.Accepting?)
                  && (u.tasks[Resumed(order)].stage.Repost? <==> s.disk[order].phase.Accepted?)
                  && (u.tasks[Resumed(order)].stage.Claim? <==> s.disk[order].phase.Filled?))
  {
  }
}
