/**
 What every run of the escrow solver keeps: the disk records every acceptance the venue may
 hold, under one fillId per order, and each order has at most one settle task.
 */
module EscrowSolverSafety {
  import opened DurableMap
  import opened EscrowSolver
  import opened Wrappers

  // The invariant.

  /** `m` records an acceptance of the order under the fillId. */
  ghost predicate Owed(m: map<Id, Entry>, order: Id, fillId: Id) {
    order in m && m[order].prepared.fillId == fillId && !m[order].phase.Accepting?
  }

  /** An acceptance that may have reached the venue and whose claim loop has not ended. */
  ghost predicate Live(posted: set<(Id, Id)>, ended: set<(Id, Id)>, order: Id, fillId: Id) {
    (order, fillId) in posted && (order, fillId) !in ended
  }

  ghost predicate Unposted(s: State, order: Id) {
    forall f :: !Live(s.posted, s.ended, order, f)
  }

  ghost predicate WellFormed(m: map<Id, Entry>) {
    forall o :: o in m ==> m[o].prepared.order == o
  }

  ghost predicate OwedBoth(s: State, order: Id, fillId: Id)
    requires s.process.Up?
  {
    Owed(s.process.mem, order, fillId) && Owed(s.disk, order, fillId)
  }

  ghost predicate Under(m: map<Id, Entry>, order: Id, fillId: Id) {
    order in m ==> m[order].prepared.fillId == fillId
  }

  ghost predicate AcceptedAs(u: Process, order: Id, fillId: Id)
    requires u.Up?
  {
    order in u.accepted && u.accepted[order] == fillId
  }

  /** The order's claim loop ended and this process's gateway signed it under this fillId. */
  ghost predicate Concluded(s: State, p: Prepared)
    requires s.process.Up?
  {
    (p.order, p.fillId) in s.ended && AcceptedAs(s.process, p.order, p.fillId)
  }

  ghost predicate TaskOk(s: State, t: Task)
    requires s.process.Up?
  {
    var u := s.process;
    var o, f := t.prepared.order, t.prepared.fillId;
    && o in u.settling
    && ((o in u.mem && Under(u.mem, o, f)) || Concluded(s, t.prepared))
    && (Unsent(t.stage) ==> !u.bidding && o in u.mem && Under(u.mem, o, f))
    && (!t.stage.Claim? ==> MaySign(u, t.prepared))
    && (t.stage in {WaitAllowance, Reaccept, CheckFilled} ==> Unposted(s, o) && u.mem[o].phase.Accepting?)
    && (t.stage in {Repost, Reposting} ==> OwedBoth(s, o, f))
  }

  ghost predicate TasksOk(s: State)
    requires s.process.Up?
  {
    var u := s.process;
    && (forall id :: id in u.tasks ==> TaskOk(s, u.tasks[id]))
    && (forall i, j :: i in u.tasks && j in u.tasks && i != j ==> u.tasks[i].prepared.order != u.tasks[j].prepared.order)
    && UnusedAbove(u)
  }

  ghost predicate UnusedAbove(u: Process)
    requires u.Up?
  {
    forall id :: id in u.tasks && id.Started? ==> id.n < u.nextTask
  }

  /** Memory against disk. */
  ghost predicate StoresOk(s: State)
    requires s.process.Up?
  {
    var u := s.process;
    && WellFormed(u.mem)
    && (forall o, f :: Live(s.posted, s.ended, o, f) ==> Owed(u.mem, o, f))
    && (forall o :: o in u.mem && !u.mem[o].phase.Accepting? ==>
                      Owed(s.disk, o, u.mem[o].prepared.fillId) || (o, u.mem[o].prepared.fillId) in s.ended)
    && (forall o :: o in u.mem && o in s.disk && MaySign(u, u.mem[o].prepared) ==>
                      s.disk[o].prepared.fillId == u.mem[o].prepared.fillId)
    && (forall o :: o in u.mem && !MaySign(u, u.mem[o].prepared) ==> u.mem[o].phase.Accepting?)
  }

  /** Once signed: the acceptance is on record, or its claim loop has ended. */
  ghost predicate Signable(s: State, p: Prepared)
    requires s.process.Up?
  {
    && AcceptedAs(s.process, p.order, p.fillId)
    && Under(s.process.mem, p.order, p.fillId) && Under(s.disk, p.order, p.fillId)
    && ((p.order, p.fillId) in s.ended || OwedBoth(s, p.order, p.fillId))
  }

  ghost predicate ForegroundOk(s: State)
    requires s.process.Up?
  {
    var u := s.process;
    (!u.foreground.Idle? ==> u.bidding)
    && match u.foreground
       case Idle => true
       case Preparing(award) =>
         award.order.Some? && award.fillId.Some? ==>
           var p := Prepared(award.auction, award.order.value, award.fillId.value);
           MaySign(u, p) ==> Under(u.mem, p.order, p.fillId)
       case InAccept(p, persist, wrote) =>
         && (MaySign(u, p) ==>
               && Under(u.mem, p.order, p.fillId) && Under(s.disk, p.order, p.fillId)
               && (persist || (p.order, p.fillId) in s.ended || OwedBoth(s, p.order, p.fillId)))
         && (wrote ==>
               && persist && Unposted(s, p.order)
               && (p.order in u.mem && !u.mem[p.order].phase.Accepting? ==>
                     (p.order, u.mem[p.order].prepared.fillId) in s.ended)
               && forall id :: id in u.tasks && u.tasks[id].prepared.order == p.order ==> Concluded(s, u.tasks[id].prepared))
       case Posting(p, _) => Signable(s, p)
       case Filling(p) => Signable(s, p)
  }

  ghost predicate DiskOk(s: State) {
    && WellFormed(s.disk)
    && (forall o, f :: Live(s.posted, s.ended, o, f) ==> Owed(s.disk, o, f))
  }

  ghost predicate Inv(s: State) {
    DiskOk(s) && (s.process.Up? ==> StoresOk(s) && TasksOk(s) && ForegroundOk(s))
  }

  // Steps that write nothing.

  lemma RestartKeeps(s: State, awarded: map<Id, Option<Id>>)
    requires Inv(s) && s.process.Down?
    ensures Inv(StepRestart(s, awarded))
  {
  }

  lemma DeliverKeeps(s: State, award: Award)
    requires Inv(s) && s.process.Up? && s.process.bidding && s.process.foreground.Idle?
    ensures Inv(StepDeliver(s, award))
  {
  }

  lemma SettleKeeps(s: State, p: Prepared, stage: Stage)
    requires Inv(s) && s.process.Up? && !Unsent(stage)
    requires (p.order in s.process.mem && Under(s.process.mem, p.order, p.fillId)) || Concluded(s, p)
    requires AcceptedAs(s.process, p.order, p.fillId)
    requires s.process.foreground.Posting? || s.process.foreground.Filling?
    ensures Inv(ToIdle(SettleInBackground(s, p, stage)))
  {
  }

  // Writes.

  lemma RecordStores(s: State, p: Prepared, phase: Phase, fault: Fault)
    requires DiskOk(s) && s.process.Up? && StoresOk(s)
    requires Under(s.process.mem, p.order, p.fillId) || Concluded(s, p)
    requires if phase.Accepting? then p.order !in s.process.mem && Unposted(s, p.order) else MaySign(s.process, p)
    ensures DiskOk(Record(s, p, phase, fault)) && StoresOk(Record(s, p, phase, fault))
  {
  }

  lemma ForgetStores(s: State, order: Id, fault: Fault)
    requires DiskOk(s) && s.process.Up? && StoresOk(s) && Unposted(s, order)
    requires order in s.process.mem && !s.process.mem[order].phase.Accepting? ==>
               (order, s.process.mem[order].prepared.fillId) in s.ended
    ensures DiskOk(Forget(s, order, fault)) && StoresOk(Forget(s, order, fault))
  {
  }

  lemma SignedStores(s: State, p: Prepared)
    requires s.process.Up? && StoresOk(s) && MaySign(s.process, p) && Under(s.process.mem, p.order, p.fillId)
    ensures StoresOk(Signed(s, p))
  {
  }

  /** A write for one order leaves the tasks of the others alone. */
  lemma RecordFrame(s: State, p: Prepared, phase: Phase, fault: Fault, t: Task)
    requires s.process.Up? && TaskOk(s, t) && t.prepared.order != p.order
    ensures TaskOk(Record(s, p, phase, fault), t)
  {
  }

  lemma ForgetFrame(s: State, order: Id, fault: Fault, t: Task)
    requires s.process.Up? && TaskOk(s, t) && t.prepared.order != order
    ensures TaskOk(Forget(s, order, fault), t)
  {
  }

  lemma SignedFrame(s: State, p: Prepared, t: Task)
    requires s.process.Up? && TaskOk(s, t) && MaySign(s.process, p)
    requires t.prepared.order == p.order ==> t.prepared.fillId == p.fillId
    ensures TaskOk(Signed(s, p), t)
  {
  }

  /** A task past its accept stays in order when its own order is recorded under its fillId. */
  lemma RecordOwn(s: State, p: Prepared, phase: Phase, fault: Fault, t: Task)
    requires s.process.Up? && TaskOk(s, t) && t.prepared.order == p.order && !Unsent(t.stage)
    requires t.prepared.fillId == p.fillId || Concluded(s, t.prepared)
    ensures TaskOk(Record(s, p, phase, fault), t)
  {
  }

  /** Tasks of the order whose entry is being written: past their accept, and not contradicted. */
  ghost predicate OwnTasksPast(s: State, p: Prepared)
    requires s.process.Up?
  {
    forall id :: id in s.process.tasks && s.process.tasks[id].prepared.order == p.order ==>
      var t := s.process.tasks[id];
      !Unsent(t.stage) && (t.prepared.fillId == p.fillId || Concluded(s, t.prepared))
  }

  lemma RecordTasks(s: State, p: Prepared, phase: Phase, fault: Fault)
    requires s.process.Up? && TasksOk(s) && OwnTasksPast(s, p)
    ensures TasksOk(Record(s, p, phase, fault))
  {
    forall id | id in s.process.tasks ensures TaskOk(Record(s, p, phase, fault), s.process.tasks[id]) {
      var t := s.process.tasks[id];
      if t.prepared.order == p.order {
        RecordOwn(s, p, phase, fault, t);
      } else {
        RecordFrame(s, p, phase, fault, t);
      }
    }
  }

  lemma SignedTasks(s: State, p: Prepared)
    requires s.process.Up? && TasksOk(s) && MaySign(s.process, p) && Under(s.process.mem, p.order, p.fillId)
    ensures TasksOk(Signed(s, p))
  {
    forall id | id in s.process.tasks ensures TaskOk(Signed(s, p), s.process.tasks[id]) {
      SignedFrame(s, p, s.process.tasks[id]);
    }
  }

  // Foreground steps.

  lemma PreparedKeeps(s: State, fault: Fault)
    requires Inv(s) && s.process.Up? && s.process.foreground.Preparing?
    requires s.process.foreground.award.order.Some? && s.process.foreground.award.fillId.Some?
    ensures Inv(StepPrepared(s, s.process.foreground.award, fault))
  {
    var award := s.process.foreground.award;
    var p := Prepared(award.auction, award.order.value, award.fillId.value);
    if p.order !in s.held {
      var t := s.(process := s.process.(awarded := s.process.awarded[p.auction := Some(p.fillId)]));
      AwardedKeeps(s, t.process.awarded);
      if p.order !in s.process.mem {
        PreparedWrites(t, p, fault);
      } else {
        PreparedOnDisk(t, p);
      }
    }
  }

  lemma AwardedKeeps(s: State, awarded: map<Id, Option<Id>>)
    requires Inv(s) && s.process.Up?
    ensures Inv(s.(process := s.process.(awarded := awarded)))
  {
  }

  lemma PreparedOnDisk(s: State, p: Prepared)
    requires Inv(s) && s.process.Up? && s.process.foreground.Preparing? && p.order in s.process.mem
    requires s.process.foreground.award == Award(p.auction, Some(p.order), Some(p.fillId))
    ensures Inv(s.(process := s.process.(foreground := InAccept(p, s.process.mem[p.order].phase.Accepting?, false))))
  {
  }

  lemma PreparedWrites(s: State, p: Prepared, fault: Fault)
    requires Inv(s) && s.process.Up? && s.process.foreground.Preparing? && p.order !in s.process.mem
    ensures var r := Record(s, p, Accepting, fault);
            Inv(if fault.NoFault? then r.(process := r.process.(foreground := InAccept(p, true, true))) else ToIdle(r))
  {
    RecordStores(s, p, Accepting, fault);
    RecordTasks(s, p, Accepting, fault);
  }

  /** Dropping an order whose own tasks have seen their claim loop end. */
  lemma ForgetTasks(s: State, order: Id, fault: Fault)
    requires s.process.Up? && TasksOk(s)
    requires forall id :: id in s.process.tasks && s.process.tasks[id].prepared.order == order ==>
                            !Unsent(s.process.tasks[id].stage) && Concluded(s, s.process.tasks[id].prepared)
    ensures TasksOk(Forget(s, order, fault))
  {
    forall id | id in s.process.tasks ensures TaskOk(Forget(s, order, fault), s.process.tasks[id]) {
      if s.process.tasks[id].prepared.order != order {
        ForgetFrame(s, order, fault, s.process.tasks[id]);
      }
    }
  }

  lemma AcceptThrowsKeeps(s: State, fault: Fault)
    requires Inv(s) && s.process.Up? && s.process.foreground.InAccept?
    ensures Inv(StepAcceptThrows(s, fault))
  {
    var f := s.process.foreground;
    if f.wroteAccepting {
      ForgetStores(s, f.p.order, fault);
      ForgetTasks(s, f.p.order, fault);
      IdleKeeps(Forget(s, f.p.order, fault));
    } else {
      IdleKeeps(s);
    }
  }

  lemma IdleKeeps(s: State)
    requires DiskOk(s) && s.process.Up? && StoresOk(s) && TasksOk(s)
    ensures Inv(ToIdle(s))
  {
  }

  lemma SignKeeps(s: State, fault: Fault)
    requires Inv(s) && s.process.Up? && s.process.foreground.InAccept? && MaySign(s.process, s.process.foreground.p)
    ensures Inv(StepSign(s, fault))
  {
    var f := s.process.foreground;
    var t := Signed(s, f.p);
    SignedStores(s, f.p);
    SignedTasks(s, f.p);
    assert Inv(t);
    if f.persist {
      SignRecordKeeps(t, fault);
    }
  }

  lemma SignRecordKeeps(s: State, fault: Fault)
    requires Inv(s) && s.process.Up? && s.process.foreground.InAccept? && s.process.foreground.persist
    requires AcceptedAs(s.process, s.process.foreground.p.order, s.process.foreground.p.fillId)
    ensures var p := s.process.foreground.p;
            var r := Record(s, p, Accepted, fault);
            Inv(if fault.NoFault? then Revived(r, p).(process := r.process.(foreground := Posting(p, true))) else r)
  {
    var p := s.process.foreground.p;
    RecordStores(s, p, Accepted, fault);
    RecordTasks(s, p, Accepted, fault);
  }

  lemma PostKeeps(s: State)
    requires Inv(s) && s.process.Up? && s.process.foreground.Posting?
    ensures Inv(StepPost(s))
  {
  }

  lemma FillConfirmedKeeps(s: State, fault: Fault)
    requires Inv(s) && s.process.Up? && s.process.foreground.Filling?
    ensures var p := s.process.foreground.p; Inv(ToIdle(SettleInBackground(Record(s, p, Filled, fault), p, Claim)))
  {
    var p := s.process.foreground.p;
    RecordStores(s, p, Filled, fault);
    RecordTasks(s, p, Filled, fault);
    SettleKeeps(Record(s, p, Filled, fault), p, Claim);
  }

  // Task steps.

  lemma AtStageKeeps(s: State, id: TaskId, stage: Stage)
    requires Inv(s) && s.process.Up? && id in s.process.tasks
    requires TaskOk(s, s.process.tasks[id].(stage := stage))
    ensures Inv(AtStage(s, id, stage))
  {
  }

  /** While a resumed fill is unsent no award is in progress, so only the tasks and stores matter. */
  lemma UnsentKeeps(s: State, t: State, id: TaskId, stage: Stage)
    requires Inv(s) && s.process.Up? && id in s.process.tasks && Unsent(s.process.tasks[id].stage)
    requires t.process.Up? && t.process.tasks == s.process.tasks && t.process.nextTask == s.process.nextTask
    requires t.process.foreground == s.process.foreground
    requires DiskOk(t) && StoresOk(t)
    requires forall i :: i in t.process.tasks ==> TaskOk(t, if i == id then t.process.tasks[i].(stage := stage) else t.process.tasks[i])
    ensures Inv(AtStage(t, id, stage))
  {
  }

  lemma TaskSignKeeps(s: State, id: TaskId, fault: Fault)
    requires Inv(s) && TaskEnabled(s, id, TaskSign(fault))
    ensures Inv(StepTask(s, id, TaskSign(fault)))
  {
    var p := s.process.tasks[id].prepared;
    var u := Signed(s, p);
    SignedStores(s, p);
    SignedTasks(s, p);
    RecordStores(u, p, Accepted, fault);
    var t := Record(u, p, Accepted, fault);
    forall i | i in t.process.tasks && i != id ensures TaskOk(t, t.process.tasks[i]) {
      RecordFrame(u, p, Accepted, fault, t.process.tasks[i]);
    }
    UnsentKeeps(s, t, id, if fault.NoFault? then Reposting else CheckFilled);
  }

  lemma TaskLandedKeeps(s: State, id: TaskId, fault: Fault)
    requires Inv(s) && s.process.Up? && id in s.process.tasks && !s.process.tasks[id].stage.Claim?
    ensures Inv(AtStage(Record(s, s.process.tasks[id].prepared, Filled, fault), id, Claim))
  {
    AtStageClaim(s, id);
    var c := AtStage(s, id, Claim);
    var p := s.process.tasks[id].prepared;
    RecordStores(c, p, Filled, fault);
    RecordTasks(c, p, Filled, fault);
    RecordForeground(c, id, fault);
  }

  lemma AtStageClaim(s: State, id: TaskId)
    requires Inv(s) && s.process.Up? && id in s.process.tasks
    ensures Inv(AtStage(s, id, Claim))
  {
    AtStageKeeps(s, id, Claim);
  }

  /** A task recording its landed fill beside an award in progress. */
  lemma RecordForeground(s: State, id: TaskId, fault: Fault)
    requires Inv(s) && s.process.Up? && id in s.process.tasks && MaySign(s.process, s.process.tasks[id].prepared)
    ensures ForegroundOk(Record(s, s.process.tasks[id].prepared, Filled, fault))
  {
  }

  lemma TaskPostsKeeps(s: State, id: TaskId, stage: Stage)
    requires Inv(s) && s.process.Up? && id in s.process.tasks
    requires s.process.tasks[id].stage in {Repost, Reposting} && stage in {WaitStanding, Follow}
    ensures var p := s.process.tasks[id].prepared;
            Inv(Posted(Revived(AtStage(s, id, stage), p), p))
  {
  }

  lemma EndTaskKeeps(s: State, id: TaskId)
    requires Inv(s) && s.process.Up? && id in s.process.tasks
    ensures Inv(EndTask(s, id))
  {
  }

  /** The order is forgotten and its task ends, in one turn. */
  lemma ForgetAndEndKeeps(s: State, id: TaskId, fault: Fault)
    requires Inv(s) && s.process.Up? && id in s.process.tasks
    requires var p := s.process.tasks[id].prepared;
             && Unposted(s, p.order)
             && ((p.order, p.fillId) in s.ended || (!s.process.bidding && s.process.mem[p.order].phase.Accepting?))
    ensures Inv(EndTask(Forget(s, s.process.tasks[id].prepared.order, fault), id))
  {
    EndTaskKeeps(s, id);
    var p := s.process.tasks[id].prepared;
    var t := EndTask(s, id);
    ForgetOrphan(t, p, fault);
  }

  /** Forgetting an order no task is settling. */
  lemma ForgetOrphan(s: State, p: Prepared, fault: Fault)
    requires Inv(s) && s.process.Up? && Unposted(s, p.order)
    requires forall id :: id in s.process.tasks ==> s.process.tasks[id].prepared.order != p.order
    requires p.order in s.process.mem && !s.process.mem[p.order].phase.Accepting? ==>
               (p.order, s.process.mem[p.order].prepared.fillId) in s.ended
    requires (p.order, p.fillId) in s.ended || s.process.foreground.Idle?
    ensures Inv(Forget(s, p.order, fault))
  {
    ForgetStores(s, p.order, fault);
    forall id | id in s.process.tasks ensures TaskOk(Forget(s, p.order, fault), s.process.tasks[id]) {
      ForgetFrame(s, p.order, fault, s.process.tasks[id]);
    }
  }

  lemma TaskKeeps(s: State, id: TaskId, e: TaskEvent)
    requires Inv(s) && TaskEnabled(s, id, e)
    ensures Inv(StepTask(s, id, e))
  {
    var p := s.process.tasks[id].prepared;
    match e
    case AllowanceStands => AtStageKeeps(s, id, if s.process.tasks[id].stage == WaitAllowance then Reaccept else Follow);
    case TaskSign(fault) => TaskSignKeeps(s, id, fault);
    case TaskRefused => AtStageKeeps(s, id, CheckFilled);
    case TaskReadsFilled(reading, fault) =>
      if reading.Landed? {
        TaskLandedKeeps(s, id, fault);
      } else if reading.Unreadable? {
        AtStageClaim(s, id);
      } else {
        ForgetAndEndKeeps(s, id, fault);
      }
    case TaskPost => TaskPostsKeeps(s, id, Follow);
    case TaskReposts(posts) =>
      if posts {
        SignedKeeps(s, id);
        TaskPostsKeeps(Signed(s, p), id, WaitStanding);
      } else {
        AtStageKeeps(s, id, WaitStanding);
      }
    case TaskFollowed(landed, fault) =>
      if landed {
        TaskLandedKeeps(s, id, fault);
      } else {
        AtStageClaim(s, id);
      }
    case ClaimEnds(result, fault) =>
      if result.Returned? {
        var t := Ended(s, p);
        ClaimReturnedKeeps(s, id);
        ForgetAndEndKeeps(t, id, fault);
      } else {
        EndTaskKeeps(s, id);
      }
  }

  lemma SignedKeeps(s: State, id: TaskId)
    requires Inv(s) && s.process.Up? && id in s.process.tasks && s.process.tasks[id].stage.Repost?
    ensures Inv(Signed(s, s.process.tasks[id].prepared))
  {
    var p := s.process.tasks[id].prepared;
    SignedStores(s, p);
    SignedTasks(s, p);
  }

  lemma EndedUnposted(s: State, p: Prepared, order: Id)
    ensures Unposted(s, order) ==> Unposted(Ended(s, p), order)
  {
    var t := Ended(s, p);
    forall f ensures Live(t.posted, t.ended, order, f) ==> Live(s.posted, s.ended, order, f) {
    }
  }

  lemma ClaimReturnedKeeps(s: State, id: TaskId)
    requires Inv(s) && s.process.Up? && id in s.process.tasks && s.process.tasks[id].stage.Claim?
    ensures var p := s.process.tasks[id].prepared;
            var t := Ended(s, p);
            Inv(t) && Unposted(t, p.order)
  {
    var u, p := s.process, s.process.tasks[id].prepared;
    var t := Ended(s, p);
    assert TaskOk(s, u.tasks[id]);
    forall o ensures Unposted(s, o) ==> Unposted(t, o) {
      EndedUnposted(s, p, o);
    }
    forall f ensures Live(t.posted, t.ended, p.order, f) ==> Live(s.posted, s.ended, p.order, f) && Owed(u.mem, p.order, f) {
    }
  }

  // Every run.

  lemma ForegroundKeeps(s: State, e: FillEvent)
    requires Inv(s) && FillEnabled(s, e)
    ensures Inv(StepFill(s, e))
  {
    var f := s.process.foreground;
    match e
    case PrepareFails =>
    case PrepareSucceeds(fault) => PreparedKeeps(s, fault);
    case AcceptThrows(fault) => AcceptThrowsKeeps(s, fault);
    case Sign(fault) => SignKeeps(s, fault);
    case Post => PostKeeps(s);
    case AcceptThrowsSigned => SettleKeeps(s, f.p, Follow);
    case FillConfirmed(fault) => FillConfirmedKeeps(s, fault);
    case FillUnresolved => SettleKeeps(s, f.p, Follow);
    case FillRefused =>
  }

  lemma StepKeeps(s: State, e: Event)
    requires Inv(s)
    ensures Inv(Step(s, e))
  {
    if Enabled(s, e) {
      match e
      case Crash =>
      case Restart(awarded) => RestartKeeps(s, awarded);
      case StartFeed =>
      case Bid(_) =>
      case Prune(_) =>
      case Deliver(award) => DeliverKeeps(s, award);
      case FillStep(fill) => ForegroundKeeps(s, fill);
      case TaskStep(id, task) => TaskKeeps(s, id, task);
    }
  }

  /** A state file at rest: it records every live acceptance. */
  ghost predicate Init(s: State) {
    s.process.Down? && DiskOk(s)
  }

  lemma {:induction false} RunKeeps(s: State, events: seq<Event>)
    requires Inv(s)
    ensures Inv(Run(s, events))
  {
    if events != [] {
      RunKeeps(s, events[..|events| - 1]);
      StepKeeps(Run(s, events[..|events| - 1]), events[|events| - 1]);
    }
  }

  /**
   Crash safety. However a run interleaves, fails its writes and crashes, an acceptance that
   may have reached the venue is on disk as `accepted` or `filled` under its own fillId until
   its claim loop returns; an order on disk as `accepting` has no such acceptance; and an
   order has at most one.
   */
  lemma CrashSafety(s: State, events: seq<Event>, order: Id, fillId: Id)
    requires Init(s)
    ensures var t := Run(s, events);
            && (Live(t.posted, t.ended, order, fillId) ==> Owed(t.disk, order, fillId))
            && (order in t.disk && t.disk[order].phase.Accepting? ==> !Live(t.posted, t.ended, order, fillId))
    ensures var t := Run(s, events);
            forall other :: Live(t.posted, t.ended, order, fillId) && Live(t.posted, t.ended, order, other) ==> other == fillId
  {
    RunKeeps(s, events);
  }

  /** The acceptance an event sends to the venue, if it sends one. */
  ghost function PostOf(s: State, e: Event): Option<Prepared> {
    if !Enabled(s, e) then None else
      match e
      case FillStep(Post) => Some(s.process.foreground.p)
      case TaskStep(id, TaskPost) => Some(s.process.tasks[id].prepared)
      case TaskStep(id, TaskReposts(true)) => Some(s.process.tasks[id].prepared)
      case _ => None
  }

  /** No other event sends anything. */
  lemma OnlyPostsPost(s: State, e: Event)
    ensures Step(s, e).posted ==
            match PostOf(s, e) { case None => s.posted case Some(p) => s.posted + {(p.order, p.fillId)} }
  {
  }

  lemma StepNamesPersistedFillId(s: State, e: Event, p: Prepared)
    requires Inv(s) && PostOf(s, e) == Some(p)
    ensures Under(s.disk, p.order, p.fillId)
    ensures (p.order, p.fillId) in s.ended || Owed(s.disk, p.order, p.fillId)
    ensures e.TaskStep? ==> Owed(s.disk, p.order, p.fillId)
  {
    if e.TaskStep? {
      assert TaskEnabled(s, e.id, e.task) && TaskOk(s, s.process.tasks[e.id]);
    } else {
      assert e == FillStep(Post) && Signable(s, s.process.foreground.p);
    }
  }

  /**
   Disk before venue, at each POST, the first of an acceptance, a redelivered award's and a
   restart's alike: an order on disk is there under the fillId the POST names; and it is there,
   `accepted` or `filled`, unless its claim loop has returned. A resumed order always is.
   */
  lemma PostNamesPersistedFillId(s: State, events: seq<Event>, e: Event, p: Prepared)
    requires Init(s) && PostOf(Run(s, events), e) == Some(p)
    ensures var t := Run(s, events);
            && (p.order in t.disk ==> t.disk[p.order].prepared.fillId == p.fillId)
            && ((p.order, p.fillId) in t.ended || Owed(t.disk, p.order, p.fillId))
            && (e.TaskStep? ==> Owed(t.disk, p.order, p.fillId))
            && Step(t, e).posted == t.posted + {(p.order, p.fillId)}
  {
    RunKeeps(s, events);
    StepNamesPersistedFillId(Run(s, events), e, p);
    OnlyPostsPost(Run(s, events), e);
  }

  /** Two running settle tasks are for two orders. */
  lemma OneSettleTaskPerOrder(s: State, events: seq<Event>, i: TaskId, j: TaskId)
    requires Init(s)
    requires var u := Run(s, events).process; u.Up? && i in u.tasks && j in u.tasks
    requires var u := Run(s, events).process; u.tasks[i].prepared.order == u.tasks[j].prepared.order
    ensures i == j
  {
    RunKeeps(s, events);
  }

  // Orders held because an entry of theirs on disk did not decode.

  /** The order is nowhere, or under the only fillId its other entry on disk names. */
  ghost predicate Named(m: map<Id, Entry>, order: Id, only: Option<Id>) {
    order in m ==> only == Some(m[order].prepared.fillId)
  }

  /** No award for the order gets past its refusal: only an entry that did decode is ever settled. */
  ghost predicate HeldOut(s: State, order: Id, before: set<(Id, Id)>, only: Option<Id>) {
    && order in s.held && Named(s.disk, order, only)
    && (forall f :: (order, f) in s.posted ==> (order, f) in before || only == Some(f))
    && (s.process.Up? ==>
          var u := s.process;
          && Named(u.mem, order, only)
          && (forall id :: id in u.tasks && u.tasks[id].prepared.order == order ==> only == Some(u.tasks[id].prepared.fillId))
          && match u.foreground
             case Idle => true
             case Preparing(award) => award.order != Some(order)
             case InAccept(p, _, _) => p.order != order
             case Posting(p, _) => p.order != order
             case Filling(p) => p.order != order)
  }

  lemma HeldRecord(s: State, p: Prepared, phase: Phase, fault: Fault, order: Id, before: set<(Id, Id)>, only: Option<Id>)
    requires HeldOut(s, order, before, only) && s.process.Up? && (p.order != order || only == Some(p.fillId))
    ensures HeldOut(Record(s, p, phase, fault), order, before, only)
  {
  }

  lemma HeldForget(s: State, o: Id, fault: Fault, order: Id, before: set<(Id, Id)>, only: Option<Id>)
    requires HeldOut(s, order, before, only) && s.process.Up?
    ensures HeldOut(Forget(s, o, fault), order, before, only)
  {
  }

  lemma HeldEnd(s: State, id: TaskId, order: Id, before: set<(Id, Id)>, only: Option<Id>)
    requires HeldOut(s, order, before, only) && s.process.Up? && id in s.process.tasks
    ensures HeldOut(EndTask(s, id), order, before, only)
  {
  }

  /** The order is dropped and its task ends, in one turn. */
  lemma HeldDropped(s: State, id: TaskId, fault: Fault, order: Id, before: set<(Id, Id)>, only: Option<Id>)
    requires HeldOut(s, order, before, only) && s.process.Up? && id in s.process.tasks
    ensures HeldOut(EndTask(Forget(s, s.process.tasks[id].prepared.order, fault), id), order, before, only)
  {
    var o := s.process.tasks[id].prepared.order;
    HeldForget(s, o, fault, order, before, only);
    HeldEnd(Forget(s, o, fault), id, order, before, only);
  }

  lemma HeldLanded(s: State, id: TaskId, fault: Fault, order: Id, before: set<(Id, Id)>, only: Option<Id>)
    requires HeldOut(s, order, before, only) && s.process.Up? && id in s.process.tasks
    ensures HeldOut(AtStage(Record(s, s.process.tasks[id].prepared, Filled, fault), id, Claim), order, before, only)
  {
    HeldRecord(s, s.process.tasks[id].prepared, Filled, fault, order, before, only);
  }

  lemma HeldTask(s: State, id: TaskId, e: TaskEvent, order: Id, before: set<(Id, Id)>, only: Option<Id>)
    requires HeldOut(s, order, before, only) && TaskEnabled(s, id, e)
    ensures HeldOut(StepTask(s, id, e), order, before, only)
  {
    var p := s.process.tasks[id].prepared;
    match e
    case AllowanceStands =>
    case TaskSign(fault) => HeldRecord(Signed(s, p), p, Accepted, fault, order, before, only);
    case TaskRefused =>
    case TaskReadsFilled(_, fault) =>
      HeldLanded(s, id, fault, order, before, only);
      HeldDropped(s, id, fault, order, before, only);
    case TaskPost =>
    case TaskReposts(_) =>
    case TaskFollowed(_, fault) => HeldLanded(s, id, fault, order, before, only);
    case ClaimEnds(_, fault) =>
      HeldDropped(Ended(s, p), id, fault, order, before, only);
      HeldEnd(s, id, order, before, only);
  }

  lemma HeldSettle(s: State, p: Prepared, stage: Stage, order: Id, before: set<(Id, Id)>, only: Option<Id>)
    requires HeldOut(s, order, before, only) && s.process.Up? && p.order != order
    ensures HeldOut(ToIdle(SettleInBackground(s, p, stage)), order, before, only)
  {
  }

  lemma HeldPrepared(s: State, fault: Fault, order: Id, before: set<(Id, Id)>, only: Option<Id>)
    requires HeldOut(s, order, before, only) && FillEnabled(s, PrepareSucceeds(fault))
    ensures HeldOut(StepPrepared(s, s.process.foreground.award, fault), order, before, only)
  {
    var award := s.process.foreground.award;
    var p := Prepared(award.auction, award.order.value, award.fillId.value);
    var t := s.(process := s.process.(awarded := s.process.awarded[p.auction := Some(p.fillId)]));
    assert HeldOut(t, order, before, only);
    if p.order !in s.held && p.order !in s.process.mem {
      HeldRecord(t, p, Accepting, fault, order, before, only);
    }
  }

  lemma HeldForeground(s: State, e: FillEvent, order: Id, before: set<(Id, Id)>, only: Option<Id>)
    requires HeldOut(s, order, before, only) && FillEnabled(s, e)
    ensures HeldOut(StepFill(s, e), order, before, only)
  {
    var f := s.process.foreground;
    match e
    case PrepareFails =>
    case PrepareSucceeds(fault) => HeldPrepared(s, fault, order, before, only);
    case AcceptThrows(fault) => HeldForget(s, f.p.order, fault, order, before, only);
    case Sign(fault) => HeldRecord(Signed(s, f.p), f.p, Accepted, fault, order, before, only);
    case Post =>
    case AcceptThrowsSigned => HeldSettle(s, f.p, Follow, order, before, only);
    case FillConfirmed(fault) =>
      HeldRecord(s, f.p, Filled, fault, order, before, only);
      HeldSettle(Record(s, f.p, Filled, fault), f.p, Claim, order, before, only);
    case FillUnresolved => HeldSettle(s, f.p, Follow, order, before, only);
    case FillRefused =>
  }

  lemma HeldStep(s: State, e: Event, order: Id, before: set<(Id, Id)>, only: Option<Id>)
    requires HeldOut(s, order, before, only) && WellFormed(s.disk)
    ensures HeldOut(Step(s, e), order, before, only)
  {
    if Enabled(s, e) {
      match e
      case Crash =>
      case Restart(awarded) =>
      case StartFeed =>
      case Bid(_) =>
      case Prune(_) =>
      case Deliver(award) =>
      case FillStep(fill) => HeldForeground(s, fill, order, before, only);
      case TaskStep(id, task) => HeldTask(s, id, task, order, before, only);
    }
  }

  ghost function FillIdOn(disk: map<Id, Entry>, order: Id): Option<Id> {
    if order in disk then Some(disk[order].prepared.fillId) else None
  }

  lemma {:induction false} RunHeldOut(s: State, events: seq<Event>, order: Id)
    requires Init(s) && order in s.held
    ensures HeldOut(Run(s, events), order, s.posted, FillIdOn(s.disk, order))
  {
    if events != [] {
      var prior := events[..|events| - 1];
      RunHeldOut(s, prior, order);
      RunKeeps(s, prior);
      HeldStep(Run(s, prior), events[|events| - 1], order, s.posted, FillIdOn(s.disk, order));
    }
  }

  /**
   No award ever has an acceptance posted for an order held as unreadable. What is posted for it
   names the fillId of an entry of the same order that did decode, if the file has one.
   */
  lemma HeldOrderNeverPosted(s: State, events: seq<Event>, order: Id)
    requires Init(s) && order in s.held
    ensures var t := Run(s, events);
            && (forall f :: (order, f) in t.posted ==> (order, f) in s.posted || (order in s.disk && s.disk[order].prepared.fillId == f))
            && (t.process.Up? && t.process.foreground.Posting? ==> t.process.foreground.p.order != order)
  {
    RunHeldOut(s, events, order);
  }

  // `settling` holds exactly the orders being settled, so a later award joins a running task
  // and an order whose task ended can be settled again.

  ghost predicate Covered(settling: set<Id>, tasks: map<TaskId, Task>) {
    forall o :: o in settling ==> exists id :: id in tasks && tasks[id].prepared.order == o
  }

  ghost predicate SettlingExact(u: Process) {
    u.Up? ==> Covered(u.settling, u.tasks)
  }

  lemma SettlingAdded(s: State, p: Prepared, stage: Stage)
    requires s.process.Up? && SettlingExact(s.process)
    requires UnusedAbove(s.process)
    ensures SettlingExact(SettleInBackground(s, p, stage).process)
  {
    var u, t := s.process, SettleInBackground(s, p, stage).process;
    assert p.order !in u.settling ==> Started(u.nextTask) in t.tasks && t.tasks[Started(u.nextTask)].prepared == p;
    forall o | o in t.settling && o in u.settling
      ensures exists id :: id in t.tasks && t.tasks[id].prepared.order == o
    {
      var id :| id in u.tasks && u.tasks[id].prepared.order == o;
      assert id in t.tasks && t.tasks[id] == u.tasks[id];
    }
  }

  lemma SettlingStaged(s: State, id: TaskId, stage: Stage)
    requires s.process.Up? && SettlingExact(s.process) && id in s.process.tasks
    ensures SettlingExact(AtStage(s, id, stage).process)
  {
    var u, t := s.process, AtStage(s, id, stage).process;
    forall o | o in t.settling ensures exists i :: i in t.tasks && t.tasks[i].prepared.order == o {
      var i :| i in u.tasks && u.tasks[i].prepared.order == o;
      assert i in t.tasks && t.tasks[i].prepared == u.tasks[i].prepared;
    }
  }

  lemma SettlingEnded(s: State, id: TaskId)
    requires s.process.Up? && SettlingExact(s.process) && id in s.process.tasks
    ensures SettlingExact(EndTask(s, id).process)
  {
    var u, t := s.process, EndTask(s, id).process;
    forall o | o in t.settling ensures exists i :: i in t.tasks && t.tasks[i].prepared.order == o {
      var i :| i in u.tasks && u.tasks[i].prepared.order == o;
      assert i in t.tasks && t.tasks[i] == u.tasks[i];
    }
  }

  lemma SettlingRestarted(s: State, awarded: map<Id, Option<Id>>)
    requires WellFormed(s.disk)
    ensures SettlingExact(StepRestart(s, awarded).process)
  {
    var t := StepRestart(s, awarded).process;
    forall o | o in t.settling ensures exists i :: i in t.tasks && t.tasks[i].prepared.order == o {
      assert Resumed(o) in t.tasks && t.tasks[Resumed(o)].prepared.order == o;
    }
  }

  lemma SettlingTask(s: State, id: TaskId, e: TaskEvent)
    requires TaskEnabled(s, id, e) && SettlingExact(s.process)
    ensures SettlingExact(StepTask(s, id, e).process)
  {
    var p := s.process.tasks[id].prepared;
    var after := StepTask(s, id, e).process;
    if id in after.tasks {
      SettlingStaged(s, id, after.tasks[id].stage);
    } else {
      SettlingEnded(s, id);
    }
  }

  lemma SettlingForeground(s: State, e: FillEvent)
    requires FillEnabled(s, e) && SettlingExact(s.process) && UnusedAbove(s.process)
    ensures SettlingExact(StepFill(s, e).process)
  {
    var p := if e.PrepareSucceeds? || e.PrepareFails? then P0 else s.process.foreground.p;
    match e
    case PrepareFails =>
    case PrepareSucceeds(_) =>
    case AcceptThrows(_) =>
    case Sign(_) =>
    case Post =>
    case AcceptThrowsSigned => SettlingAdded(s, p, Follow);
    case FillConfirmed(fault) => SettlingAdded(Record(s, p, Filled, fault), p, Claim);
    case FillUnresolved => SettlingAdded(s, p, Follow);
    case FillRefused =>
  }

  lemma SettlingStep(s: State, e: Event)
    requires Inv(s) && SettlingExact(s.process)
    ensures SettlingExact(Step(s, e).process)
  {
    if Enabled(s, e) {
      match e
      case Crash =>
      case Restart(awarded) => SettlingRestarted(s, awarded);
      case StartFeed =>
      case Bid(_) =>
      case Prune(_) =>
      case Deliver(award) =>
      case FillStep(fill) => SettlingForeground(s, fill);
      case TaskStep(id, task) => SettlingTask(s, id, task);
    }
  }

  lemma {:induction false} SettlingIsExact(s: State, events: seq<Event>)
    requires Init(s)
    ensures SettlingExact(Run(s, events).process)
  {
    if events != [] {
      var prior := events[..|events| - 1];
      SettlingIsExact(s, prior);
      RunKeeps(s, prior);
      SettlingStep(Run(s, prior), events[|events| - 1]);
    }
  }

  // When `accepting` on disk is no promise that nothing was sent.

  predicate AcceptingOn(m: map<Id, Entry>, order: Id) {
    order in m && m[order].phase.Accepting?
  }

  ghost predicate WasPosted(s: State, order: Id) {
    exists f :: (order, f) in s.posted
  }

  /** The file says nothing reached the venue, and something did. */
  ghost predicate Contradicts(s: State, order: Id) {
    AcceptingOn(s.disk, order) && WasPosted(s, order)
  }

  /** The order whose entry an event writes or drops, with the rest of memory, and how the write ends. */
  ghost function FillRewrites(s: State, e: FillEvent): Option<(Id, Fault)>
    requires FillEnabled(s, e)
  {
    var u := s.process;
    match e
    case PrepareSucceeds(fault) =>
      var order := u.foreground.award.order.value;
      if order !in s.held && order !in u.mem then Some((order, fault)) else None
    case AcceptThrows(fault) =>
      var f := u.foreground;
      if f.wroteAccepting && f.p.order in u.mem then Some((f.p.order, fault)) else None
    case Sign(fault) => if u.foreground.persist then Some((u.foreground.p.order, fault)) else None
    case FillConfirmed(fault) => Some((u.foreground.p.order, fault))
    case _ => None
  }

  ghost function TaskRewrites(s: State, id: TaskId, e: TaskEvent): Option<(Id, Fault)>
    requires TaskEnabled(s, id, e)
  {
    var order := s.process.tasks[id].prepared.order;
    match e
    case TaskSign(fault) => Some((order, fault))
    case TaskReadsFilled(Landed, fault) => Some((order, fault))
    case TaskReadsFilled(NotLanded, fault) => if order in s.process.mem then Some((order, fault)) else None
    case TaskFollowed(true, fault) => Some((order, fault))
    case ClaimEnds(Returned, fault) => if order in s.process.mem then Some((order, fault)) else None
    case _ => None
  }

  ghost function Rewrites(s: State, e: Event): Option<(Id, Fault)> {
    if !Enabled(s, e) then None else
      match e
      case FillStep(fill) => FillRewrites(s, fill)
      case TaskStep(id, task) => TaskRewrites(s, id, task)
      case _ => None
  }

  /**
   The two ways `accepting` gets to disk, both a write that reaches its rename: an award whose
   `prepare` returned for an order neither held nor in memory; or any other order's write, while
   memory still has this one as `accepting` because dropping it, or recording it `accepted`, had
   failed after its rename.
   */
  ghost predicate PutsBack(s: State, e: Event, order: Id) {
    var w := Rewrites(s, e);
    && w.Some? && !w.value.1.BeforeRename?
    && (if w.value.0 == order then e.FillStep? && e.fill.PrepareSucceeds?
        else s.process.Up? && AcceptingOn(s.process.mem, order))
  }

  lemma FillPutsBack(s: State, e: FillEvent, order: Id)
    requires FillEnabled(s, e)
    ensures AcceptingOn(StepFill(s, e).disk, order) <==>
            PutsBack(s, FillStep(e), order)
            || (AcceptingOn(s.disk, order) && (FillRewrites(s, e).None? || FillRewrites(s, e).value.1.BeforeRename?))
  {
  }

  lemma TaskPutsBack(s: State, id: TaskId, e: TaskEvent, order: Id)
    requires TaskEnabled(s, id, e)
    ensures AcceptingOn(StepTask(s, id, e).disk, order) <==>
            PutsBack(s, TaskStep(id, e), order)
            || (AcceptingOn(s.disk, order) && (TaskRewrites(s, id, e).None? || TaskRewrites(s, id, e).value.1.BeforeRename?))
  {
  }

  lemma StepPutsBack(s: State, e: Event, order: Id)
    requires !AcceptingOn(s.disk, order)
    ensures AcceptingOn(Step(s, e).disk, order) <==> PutsBack(s, e, order)
  {
    if Enabled(s, e) {
      match e
      case FillStep(fill) => FillPutsBack(s, fill, order);
      case TaskStep(id, task) => TaskPutsBack(s, id, task, order);
      case _ =>
    }
  }

  /** No POST is made while its order is on disk as `accepting`. */
  ghost predicate Quiet(s: State) {
    s.process.Up? ==>
      var u := s.process;
      && (forall o :: o in u.mem && !AcceptingOn(u.mem, o) ==> !AcceptingOn(s.disk, o))
      && match u.foreground
         case InAccept(p, persist, _) => !persist ==> !AcceptingOn(u.mem, p.order) && !AcceptingOn(s.disk, p.order)
         case Posting(p, _) => !AcceptingOn(u.mem, p.order) && !AcceptingOn(s.disk, p.order)
         case _ => true
  }

  lemma RecordQuiet(s: State, p: Prepared, phase: Phase, fault: Fault)
    requires s.process.Up? && Quiet(s)
    requires phase.Accepting? ==> p.order !in s.process.mem && s.process.foreground.Preparing?
    ensures Quiet(Record(s, p, phase, fault))
  {
  }

  lemma ForgetQuiet(s: State, order: Id, fault: Fault)
    requires s.process.Up? && Quiet(s)
    ensures Quiet(Forget(s, order, fault))
  {
  }

  lemma PreparedQuiet(s: State, fault: Fault)
    requires FillEnabled(s, PrepareSucceeds(fault)) && Quiet(s)
    ensures Quiet(StepPrepared(s, s.process.foreground.award, fault))
  {
    var award := s.process.foreground.award;
    var p := Prepared(award.auction, award.order.value, award.fillId.value);
    var t := s.(process := s.process.(awarded := s.process.awarded[p.auction := Some(p.fillId)]));
    if p.order !in t.process.mem {
      RecordQuiet(t, p, Accepting, fault);
    }
  }

  lemma FillQuiet(s: State, e: FillEvent)
    requires FillEnabled(s, e) && Quiet(s)
    ensures Quiet(StepFill(s, e))
  {
    var f := s.process.foreground;
    match e
    case PrepareSucceeds(fault) => PreparedQuiet(s, fault);
    case AcceptThrows(fault) => ForgetQuiet(s, f.p.order, fault);
    case Sign(fault) => RecordQuiet(Signed(s, f.p), f.p, Accepted, fault);
    case FillConfirmed(fault) => RecordQuiet(s, f.p, Filled, fault);
    case _ =>
  }

  lemma TaskQuiet(s: State, id: TaskId, e: TaskEvent)
    requires TaskEnabled(s, id, e) && Quiet(s)
    ensures Quiet(StepTask(s, id, e))
  {
    var p := s.process.tasks[id].prepared;
    match e
    case TaskSign(fault) => RecordQuiet(Signed(s, p), p, Accepted, fault);
    case TaskReadsFilled(_, fault) =>
      RecordQuiet(s, p, Filled, fault);
      ForgetQuiet(s, p.order, fault);
    case TaskFollowed(_, fault) => RecordQuiet(s, p, Filled, fault);
    case ClaimEnds(_, fault) => ForgetQuiet(Ended(s, p), p.order, fault);
    case _ =>
  }

  lemma {:induction false} RunQuiet(s: State, events: seq<Event>)
    requires Init(s)
    ensures Quiet(Run(s, events))
  {
    if events != [] {
      var t, e := Run(s, events[..|events| - 1]), events[|events| - 1];
      RunQuiet(s, events[..|events| - 1]);
      if Enabled(t, e) {
        match e
        case FillStep(fill) => FillQuiet(t, fill);
        case TaskStep(id, task) => TaskQuiet(t, id, task);
        case _ =>
      }
    }
  }

  lemma PostsWhileQuiet(s: State, e: Event, p: Prepared)
    requires Inv(s) && Quiet(s) && PostOf(s, e) == Some(p)
    ensures !AcceptingOn(s.disk, p.order) && Step(s, e).disk == s.disk
  {
    if e.TaskStep? {
      StepNamesPersistedFillId(s, e, p);
    }
  }

  /**
   Exactly when the file starts to say `accepting` of an order whose acceptance was sent: when an
   order sent for is put back in one of the two ways. Every acceptance of it is then one whose
   claim loop has returned. (The first way needs a `prepare` that read the lock open before the
   claim landed.)
   */
  lemma AcceptingAfterPostExactly(s: State, events: seq<Event>, e: Event, order: Id)
    requires Init(s) && !Contradicts(Run(s, events), order)
    ensures var t := Run(s, events);
            && (Contradicts(Step(t, e), order) <==> WasPosted(t, order) && PutsBack(t, e, order))
            && (Contradicts(Step(t, e), order) ==> forall f :: (order, f) in Step(t, e).posted ==> (order, f) in Step(t, e).ended)
  {
    var t := Run(s, events);
    RunKeeps(s, events);
    RunQuiet(s, events);
    StepKeeps(t, e);
    OnlyPostsPost(t, e);
    var post := PostOf(t, e);
    if post.Some? {
      PostsWhileQuiet(t, e, post.value);
      assert WasPosted(Step(t, e), order) ==> WasPosted(t, order) || post.value.order == order;
    } else {
      assert WasPosted(Step(t, e), order) <==> WasPosted(t, order);
    }
    if !AcceptingOn(t.disk, order) {
      StepPutsBack(t, e, order);
    }
    forall f | Contradicts(Step(t, e), order) && (order, f) in Step(t, e).posted ensures (order, f) in Step(t, e).ended {
      assert !Live(Step(t, e).posted, Step(t, e).ended, order, f);
    }
  }

  // Runs that mark the edges of these results.

  const P0 := Prepared(7, 0, 1)
  const P1 := Prepared(8, 1, 2)
  const AWARD := Award(7, Some(0), Some(1))
  const BOUND: map<Id, Option<Id>> := map[7 := Some(1), 8 := Some(2)]
  const SENT: set<(Id, Id)> := {(0, 1), (1, 2)}

  /** Two filled orders at rest; then resumed, with a redelivered award for the first being prepared. */
  const AT_REST := State(map[0 := Entry(P0, Filled), 1 := Entry(P1, Filled)], {}, Down, SENT, {})
  const RESUMED := State(AT_REST.disk, {},
                         Up(AT_REST.disk, {}, BOUND, map[], {0, 1},
                            map[Resumed(0) := Task(P0, Claim), Resumed(1) := Task(P1, Claim)], 0, Preparing(AWARD), true),
                         SENT, {})

  /** Its claim loop has returned, and the award put it back. */
  const PUT_BACK := State(map[0 := Entry(P0, Accepting), 1 := Entry(P1, Filled)], {},
                          Up(map[0 := Entry(P0, Accepting), 1 := Entry(P1, Filled)], {}, BOUND, map[], {1},
                             map[Resumed(1) := Task(P1, Claim)], 0, InAccept(P0, true, true), true),
                          SENT, {(0, 1)})

  const STARTING := RESUMED.(process := RESUMED.process.(foreground := Idle, bidding := false))

  lemma RestBound()
    ensures AwardedFromDisk(AT_REST.disk, BOUND)
  {
    assert AT_REST.disk[0].prepared == P0 && AT_REST.disk[1].prepared == P1;
  }

  lemma RestTasks()
    ensures StepRestart(AT_REST, BOUND).process.tasks == RESUMED.process.tasks && AT_REST.disk.Keys == {0, 1}
  {
    var tasks := StepRestart(AT_REST, BOUND).process.tasks;
    assert tasks.Keys == {Resumed(0), Resumed(1)};
  }

  lemma RestRestarts()
    ensures Step(AT_REST, Restart(BOUND)) == STARTING
  {
    RestBound();
    RestTasks();
  }

  lemma StartingDelivers()
    ensures Step(Step(STARTING, StartFeed), Deliver(AWARD)) == RESUMED
  {
    var s := STARTING.(process := STARTING.process.(bidding := true));
    assert Step(STARTING, StartFeed) == s;
    assert StepDeliver(s, AWARD) == s.(process := s.process.(foreground := Preparing(AWARD)));
  }

  lemma ResumedEnds()
    ensures var s := Step(RESUMED, TaskStep(Resumed(0), ClaimEnds(Returned, NoFault)));
            s == State(map[1 := Entry(P1, Filled)], {},
                       Up(map[1 := Entry(P1, Filled)], {}, map[8 := Some(2)], map[], {1}, map[Resumed(1) := Task(P1, Claim)], 0,
                          Preparing(AWARD), true), SENT, {(0, 1)})
  {
    var t := Forget(Ended(RESUMED, P0), 0, NoFault);
    assert t.disk == map[1 := Entry(P1, Filled)] && t.ended == {(0, 1)};
    var u := EndTask(t, Resumed(0)).process;
    assert u.tasks == map[Resumed(1) := Task(P1, Claim)] && u.awarded == map[8 := Some(2)] && u.settling == {1};
  }

  lemma ResumedPutBack()
    ensures Step(Step(RESUMED, TaskStep(Resumed(0), ClaimEnds(Returned, NoFault))), FillStep(PrepareSucceeds(NoFault))) == PUT_BACK
  {
    ResumedEnds();
    var s := Step(RESUMED, TaskStep(Resumed(0), ClaimEnds(Returned, NoFault)));
    assert s.process.mem[0 := Entry(P0, Accepting)] == PUT_BACK.disk;
    assert s.process.awarded[7 := Some(1)] == BOUND;
  }

  /**
   Both ways happen. After its claim loop has returned, a redelivered award puts an order back on
   disk as `accepting`, although its acceptance was posted. When dropping it again fails after the
   rename, it is gone from disk, until another order's write brings it back.
   */
  lemma AcceptingAfterClaim()
    ensures var awarded := [Restart(BOUND), StartFeed, Deliver(AWARD)]
                           + [TaskStep(Resumed(0), ClaimEnds(Returned, NoFault))] + [FillStep(PrepareSucceeds(NoFault))];
            var dropped := awarded + [FillStep(AcceptThrows(AfterRename))];
            && Init(AT_REST) && Contradicts(Run(AT_REST, awarded), 0) && !Contradicts(Run(AT_REST, dropped), 0)
            && Contradicts(Run(AT_REST, dropped + [TaskStep(Resumed(1), ClaimEnds(Returned, NoFault))]), 0)
  {
    RestRestarts();
    StartingDelivers();
    RunThree(AT_REST, Restart(BOUND), StartFeed, Deliver(AWARD));
    ResumedPutBack();
    DroppedComesBack();
    AtRestInit();
    RunFour(AT_REST, [Restart(BOUND), StartFeed, Deliver(AWARD)], TaskStep(Resumed(0), ClaimEnds(Returned, NoFault)),
            FillStep(PrepareSucceeds(NoFault)), FillStep(AcceptThrows(AfterRename)), TaskStep(Resumed(1), ClaimEnds(Returned, NoFault)));
  }

  lemma AtRestInit()
    ensures Init(AT_REST)
  {
  }

  lemma RunFour(s: State, events: seq<Event>, e1: Event, e2: Event, e3: Event, e4: Event)
    ensures var two := events + [e1] + [e2];
            && Run(s, two) == Step(Step(Run(s, events), e1), e2) && Run(s, two + [e3]) == Step(Run(s, two), e3)
            && Run(s, two + [e3] + [e4]) == Step(Run(s, two + [e3]), e4)
  {
    RunSnoc(s, events, e1);
    RunSnoc(s, events + [e1], e2);
    RunSnoc(s, events + [e1] + [e2], e3);
    RunSnoc(s, events + [e1] + [e2] + [e3], e4);
  }

  lemma DroppedComesBack()
    ensures var s := Step(PUT_BACK, FillStep(AcceptThrows(AfterRename)));
            var t := Step(s, TaskStep(Resumed(1), ClaimEnds(Returned, NoFault)));
            Contradicts(PUT_BACK, 0) && !Contradicts(s, 0) && Contradicts(t, 0)
  {
    var s := Step(PUT_BACK, FillStep(AcceptThrows(AfterRename)));
    assert (0, 1) in PUT_BACK.posted && (0, 1) in Step(s, TaskStep(Resumed(1), ClaimEnds(Returned, NoFault))).posted;
  }

  /** A resumed `accepting` order, still reading whether its fill landed, with the feed already started. */
  const EARLY := State(map[0 := Entry(P0, Accepting)], {},
                       Up(map[0 := Entry(P0, Accepting)], {}, map[7 := Some(1)], map[], {0},
                          map[Resumed(0) := Task(P0, CheckFilled)], 0, Preparing(AWARD), true), {}, {})

  /** Its redelivered award accepted and posted. */
  const EARLY_POSTED := State(map[0 := Entry(P0, Accepted)], {},
                              Up(map[0 := Entry(P0, Accepted)], {}, map[7 := Some(1)], map[0 := 1], {0},
                                 map[Resumed(0) := Task(P0, CheckFilled)], 0, Filling(P0), true), {(0, 1)}, {})

  lemma EarlyPrepares()
    ensures Step(EARLY, FillStep(PrepareSucceeds(NoFault))) ==
            EARLY.(process := EARLY.process.(foreground := InAccept(P0, true, false)))
  {
    assert map[7 := Some(1)][7 := Some(1)] == map[7 := Some(1)];
  }

  lemma EarlySigns()
    ensures var s := EARLY.(process := EARLY.process.(foreground := InAccept(P0, true, false)));
            Step(Step(s, FillStep(Sign(NoFault))), FillStep(Post)) == EARLY_POSTED
  {
    var s := EARLY.(process := EARLY.process.(foreground := InAccept(P0, true, false)));
    assert EARLY.disk[0 := Entry(P0, Accepted)] == EARLY_POSTED.disk && map[][0 := 1] == EARLY_POSTED.process.accepted;
    assert Revived(s, P0).ended == {} && {} + {(0, 1)} == EARLY_POSTED.posted;
  }

  lemma EarlyPosts()
    ensures Run(EARLY, [FillStep(PrepareSucceeds(NoFault)), FillStep(Sign(NoFault)), FillStep(Post)]) == EARLY_POSTED
  {
    EarlyPrepares();
    EarlySigns();
    RunThree(EARLY, FillStep(PrepareSucceeds(NoFault)), FillStep(Sign(NoFault)), FillStep(Post));
  }

  /**
   Why the feed waits for every resumed fill: had it started while a resumed `accepting` order
   was still reading whether its fill landed, dropping that order would erase an acceptance
   just posted for it.
   */
  lemma EarlyFeedLosesAcceptance()
    ensures var t := Run(EARLY, [FillStep(PrepareSucceeds(NoFault)), FillStep(Sign(NoFault)), FillStep(Post)]
                                + [FillStep(FillUnresolved)] + [TaskStep(Resumed(0), TaskReadsFilled(NotLanded, NoFault))]);
            DiskOk(EARLY) && Live(t.posted, t.ended, 0, 1) && 0 !in t.disk
  {
    var posted := [FillStep(PrepareSucceeds(NoFault)), FillStep(Sign(NoFault)), FillStep(Post)];
    EarlyPosts();
    RunSnoc(EARLY, posted, FillStep(FillUnresolved));
    RunSnoc(EARLY, posted + [FillStep(FillUnresolved)], TaskStep(Resumed(0), TaskReadsFilled(NotLanded, NoFault)));
  }

  lemma RunThree(s: State, e1: Event, e2: Event, e3: Event)
    ensures Run(s, [e1, e2, e3]) == Step(Step(Step(s, e1), e2), e3)
  {
    assert [e1, e2, e3] == [e1, e2] + [e3];
    RunSnoc(s, [e1, e2], e3);
    assert [e1, e2] == [e1] + [e2];
    RunSnoc(s, [e1], e2);
    assert [e1] == [] + [e1];
    RunSnoc(s, [], e1);
  }

  lemma RunSnoc(s: State, events: seq<Event>, e: Event)
    ensures Run(s, events + [e]) == Step(Run(s, events), e)
  {
    assert (events + [e])[..|events|] == events;
  }
}
