/**
 The escrow solver's order protocol as a state machine: awards delivered one at a time,
 background settle tasks interleaved with them, every state write able to fail before or
 after its rename, and a crash possible between any two steps. (A crash inside a write leaves
 what one of the two failures leaves: `AtomicRewrite.KilledWriteIsEither`.)

 The gateway is the environment. It may refuse at any point before it signs; it calls
 `onSigned` after signing and before the POST, a failed `onSigned` stops the POST, it never
 signs an order under a second fillId in one process, and `prepare` returns the award's own
 order and fillId.
 */
module EscrowSolver {
  import opened DurableMap
  import opened Wrappers

  /** Order, fill and auction ids; two spellings that differ in letter case are one id. */
  type Id = nat

  datatype Phase = Accepting | Accepted | Filled

  datatype Prepared = Prepared(auction: Id, order: Id, fillId: Id)

  datatype Entry = Entry(prepared: Prepared, phase: Phase)

  datatype Award = Award(auction: Id, order: Option<Id>, fillId: Option<Id>)

  /** Where a settle task stands between two awaits. */
  datatype Stage =
    | WaitAllowance // resumed `accepting`, before its full accept
    | Reaccept      // full accept called, nothing signed
    | CheckFilled   // the accept threw; reading whether the fill landed
    | Reposting     // signed and recorded `accepted`, the POST is next
    | Repost        // resumed `accepted`, before it is posted again
    | WaitStanding  // posted again, or refused in trying, before its fill
    | Follow        // driving the owed fill
    | Claim         // the claim loop

  datatype Task = Task(prepared: Prepared, stage: Stage)

  datatype TaskId = Resumed(order: Id) | Started(n: nat)

  /** The one `fill(award)` call in progress. */
  datatype Foreground =
    | Idle
    | Preparing(award: Award)
    | InAccept(p: Prepared, persist: bool, wroteAccepting: bool)
    | Posting(p: Prepared, recorded: bool)
    | Filling(p: Prepared)

  datatype Process =
    | Down
    | Up(mem: map<Id, Entry>,
         bids: set<Id>,
         awarded: map<Id, Option<Id>>,
         accepted: map<Id, Id>,         // the gateway's one fillId per order
         settling: set<Id>,
         tasks: map<TaskId, Task>,
         nextTask: nat,
         foreground: Foreground,
         bidding: bool)

  /** `posted` and `ended` are history: acceptances that may have reached the venue, and those
      whose claim loop has returned a result other than `aborted` since the acceptance was last
      recorded by an award, or posted by a settle task. */
  datatype State = State(disk: map<Id, Entry>, held: set<Id>, process: Process,
                         posted: set<(Id, Id)>, ended: set<(Id, Id)>)

  datatype Reading = Landed | NotLanded | Unreadable

  datatype ClaimResult = Threw | Aborted | Returned

  /** What `fill(award)` meets at its awaits. */
  datatype FillEvent =
    | PrepareFails
    | PrepareSucceeds(fault: Fault)
    | AcceptThrows(fault: Fault)
    | Sign(fault: Fault)
    | Post
    | AcceptThrowsSigned
    | FillConfirmed(fault: Fault)
    | FillUnresolved
    | FillRefused

  /** What a settle task meets at its awaits. */
  datatype TaskEvent =
    | AllowanceStands
    | TaskSign(fault: Fault)
    | TaskRefused
    | TaskReadsFilled(reading: Reading, fault: Fault)
    | TaskPost
    | TaskReposts(posts: bool)
    | TaskFollowed(landed: bool, fault: Fault)
    | ClaimEnds(result: ClaimResult, fault: Fault)

  datatype Event =
    | Crash
    | Restart(awarded: map<Id, Option<Id>>)
    | StartFeed
    | Bid(auction: Id)
    | Prune(auction: Id)
    | Deliver(award: Award)
    | FillStep(fill: FillEvent)
    | TaskStep(id: TaskId, task: TaskEvent)

  // Writes.

  function WithStore(s: State, st: Store<Id, Entry>): State
    requires s.process.Up?
  {
    s.(disk := st.disk, process := s.process.(mem := st.mem))
  }

  function Record(s: State, p: Prepared, phase: Phase, fault: Fault): State
    requires s.process.Up?
  {
    WithStore(s, Put(Store(s.process.mem, s.disk), p.order, Entry(p, phase), fault))
  }

  function Forget(s: State, order: Id, fault: Fault): State
    requires s.process.Up?
  {
    WithStore(s, Remove(Store(s.process.mem, s.disk), order, fault))
  }

  // Background tasks.

  function SettleInBackground(s: State, p: Prepared, stage: Stage): State
    requires s.process.Up?
  {
    var u := s.process;
    if p.order in u.settling then s else
      s.(process := u.(settling := u.settling + {p.order},
                       tasks := u.tasks[Started(u.nextTask) := Task(p, stage)],
                       nextTask := u.nextTask + 1))
  }

  function AtStage(s: State, id: TaskId, stage: Stage): State
    requires s.process.Up? && id in s.process.tasks
  {
    s.(process := s.process.(tasks := s.process.tasks[id := s.process.tasks[id].(stage := stage)]))
  }

  function EndTask(s: State, id: TaskId): State
    requires s.process.Up? && id in s.process.tasks
  {
    var u := s.process;
    var p := u.tasks[id].prepared;
    s.(process := u.(tasks := u.tasks - {id}, settling := u.settling - {p.order}, awarded := u.awarded - {p.auction}))
  }

  function ToIdle(s: State): State
    requires s.process.Up?
  {
    s.(process := s.process.(foreground := Idle))
  }

  // The gateway signs an order under one fillId per process.

  predicate MaySign(u: Process, p: Prepared)
    requires u.Up?
  {
    p.order in u.accepted ==> u.accepted[p.order] == p.fillId
  }

  function Signed(s: State, p: Prepared): State
    requires s.process.Up?
  {
    s.(process := s.process.(accepted := s.process.accepted[p.order := p.fillId]))
  }

  // Foreground steps: `fill(award)` between its awaits.

  function StepDeliver(s: State, award: Award): State
    requires s.process.Up?
  {
    var u := s.process;
    var redelivered := award.auction in u.awarded;
    if redelivered && u.awarded[award.auction].Some? && award.fillId != u.awarded[award.auction] then s
    else if award.order.Some? && award.order.value in u.mem
            && award.fillId != Some(u.mem[award.order.value].prepared.fillId) then s
    else if award.order.Some? && award.order.value in s.held then s
    else if award.auction in u.bids then
      s.(process := u.(bids := u.bids - {award.auction}, awarded := u.awarded[award.auction := None],
                       foreground := Preparing(award)))
    else if redelivered then s.(process := u.(foreground := Preparing(award)))
    else s
  }

  function StepPrepared(s: State, award: Award, fault: Fault): State
    requires s.process.Up? && award.order.Some? && award.fillId.Some?
  {
    var p := Prepared(award.auction, award.order.value, award.fillId.value);
    if p.order in s.held then ToIdle(s) else
      var t := s.(process := s.process.(awarded := s.process.awarded[p.auction := Some(p.fillId)]));
      var onDisk := p.order in t.process.mem;
      var persist := !onDisk || t.process.mem[p.order].phase.Accepting?;
      if onDisk then
        t.(process := t.process.(foreground := InAccept(p, persist, false)))
      else if fault.NoFault? then
        var r := Record(t, p, Accepting, fault);
        r.(process := r.process.(foreground := InAccept(p, persist, true)))
      else
        ToIdle(Record(t, p, Accepting, fault))
  }

  function StepAcceptThrows(s: State, fault: Fault): State
    requires s.process.Up? && s.process.foreground.InAccept?
  {
    var f := s.process.foreground;
    ToIdle(if f.wroteAccepting then Forget(s, f.p.order, fault) else s)
  }

  function StepSign(s: State, fault: Fault): State
    requires s.process.Up? && s.process.foreground.InAccept?
  {
    var f := s.process.foreground;
    var t := Signed(s, f.p);
    var r := if f.persist then Record(t, f.p, Accepted, fault) else t;
    if !f.persist then r.(process := r.process.(foreground := Posting(f.p, false)))
    else if fault.NoFault? then Revived(r, f.p).(process := r.process.(foreground := Posting(f.p, true)))
    else r
  }

  function StepPost(s: State): State
    requires s.process.Up? && s.process.foreground.Posting?
  {
    var p := s.process.foreground.p;
    Posted(s, p).(process := s.process.(foreground := Filling(p)))
  }

  // Resuming after a restart.

  function ResumeStage(phase: Phase): Stage {
    match phase
    case Accepting => WaitAllowance
    case Accepted => Repost
    case Filled => Claim
  }

  /** Every auction on disk is bound to the fillId of an entry of it. */
  ghost predicate AwardedFromDisk(disk: map<Id, Entry>, awarded: map<Id, Option<Id>>) {
    && (forall o :: o in disk ==> disk[o].prepared.auction in awarded)
    && (forall a :: a in awarded ==>
          exists o :: o in disk && disk[o].prepared.auction == a && awarded[a] == Some(disk[o].prepared.fillId))
  }

  function StepRestart(s: State, awarded: map<Id, Option<Id>>): State {
    s.(process := Up(s.disk, {}, awarded, map[], s.disk.Keys,
                     map o | o in s.disk :: Resumed(o) := Task(s.disk[o].prepared, ResumeStage(s.disk[o].phase)),
                     0, Idle, false))
  }

  /** A resumed fill that has neither been sent nor settled. */
  predicate Unsent(stage: Stage) {
    stage !in {Follow, Claim}
  }

  // Task steps.

  predicate TaskEnabled(s: State, id: TaskId, e: TaskEvent) {
    && s.process.Up? && id in s.process.tasks
    && var t := s.process.tasks[id];
       match e
       case AllowanceStands => t.stage == WaitAllowance || t.stage == WaitStanding
       case TaskSign(_) => t.stage == Reaccept && MaySign(s.process, t.prepared)
       case TaskRefused => t.stage == Reaccept
       case TaskReadsFilled(_, _) => t.stage == CheckFilled
       case TaskPost => t.stage == Reposting
       case TaskReposts(posts) => t.stage == Repost && (posts ==> MaySign(s.process, t.prepared))
       case TaskFollowed(_, _) => t.stage == Follow
       case ClaimEnds(_, _) => t.stage == Claim
  }

  function StepTask(s: State, id: TaskId, e: TaskEvent): State
    requires TaskEnabled(s, id, e)
  {
    var p := s.process.tasks[id].prepared;
    match e
    case AllowanceStands => AtStage(s, id, if s.process.tasks[id].stage == WaitAllowance then Reaccept else Follow)
    case TaskSign(fault) =>
      AtStage(Record(Signed(s, p), p, Accepted, fault), id, if fault.NoFault? then Reposting else CheckFilled)
    case TaskRefused => AtStage(s, id, CheckFilled)
    case TaskReadsFilled(reading, fault) =>
      (match reading
       case Landed => AtStage(Record(s, p, Filled, fault), id, Claim)
       case Unreadable => AtStage(s, id, Claim)
       case NotLanded => EndTask(Forget(s, p.order, fault), id))
    case TaskPost => Posted(Revived(AtStage(s, id, Follow), p), p)
    case TaskReposts(posts) =>
      if posts then Posted(Revived(AtStage(Signed(s, p), id, WaitStanding), p), p) else AtStage(s, id, WaitStanding)
    case TaskFollowed(landed, fault) =>
      AtStage(if landed then Record(s, p, Filled, fault) else s, id, Claim)
    case ClaimEnds(result, fault) =>
      if result.Returned? then EndTask(Forget(Ended(s, p), p.order, fault), id) else EndTask(s, id)
  }

  function Posted(s: State, p: Prepared): State {
    s.(posted := s.posted + {(p.order, p.fillId)})
  }

  function Ended(s: State, p: Prepared): State {
    s.(ended := s.ended + {(p.order, p.fillId)})
  }

  /** A new acceptance under the same fillId, owed again whatever became of the last one. */
  function Revived(s: State, p: Prepared): State {
    s.(ended := s.ended - {(p.order, p.fillId)})
  }

  predicate FillEnabled(s: State, e: FillEvent) {
    && s.process.Up?
    && var f := s.process.foreground;
       match e
       case PrepareFails => f.Preparing?
       case PrepareSucceeds(_) => f.Preparing? && f.award.order.Some? && f.award.fillId.Some?
       case AcceptThrows(_) => f.InAccept?
       case Sign(_) => f.InAccept? && MaySign(s.process, f.p)
       case Post => f.Posting?
       case AcceptThrowsSigned => f.Posting?
       case FillConfirmed(_) => f.Filling?
       case FillUnresolved => f.Filling?
       case FillRefused => f.Filling?
  }

  function StepFill(s: State, e: FillEvent): State
    requires FillEnabled(s, e)
  {
    var f := s.process.foreground;
    match e
    case PrepareFails => ToIdle(s)
    case PrepareSucceeds(fault) => StepPrepared(s, f.award, fault)
    case AcceptThrows(fault) => StepAcceptThrows(s, fault)
    case Sign(fault) => StepSign(s, fault)
    case Post => StepPost(s)
    case AcceptThrowsSigned => ToIdle(if f.recorded then SettleInBackground(s, f.p, Follow) else s)
    case FillConfirmed(fault) => ToIdle(SettleInBackground(Record(s, f.p, Filled, fault), f.p, Claim))
    case FillUnresolved => ToIdle(SettleInBackground(s, f.p, Follow))
    case FillRefused => ToIdle(s)
  }

  ghost predicate Enabled(s: State, e: Event) {
    match e
    case Crash => s.process.Up?
    case Restart(awarded) => s.process.Down? && AwardedFromDisk(s.disk, awarded)
    case StartFeed => s.process.Up? && forall id :: id in s.process.tasks ==> !Unsent(s.process.tasks[id].stage)
    case Bid(_) => s.process.Up? && s.process.bidding
    case Prune(_) => s.process.Up? && s.process.bidding
    case Deliver(_) => s.process.Up? && s.process.bidding && s.process.foreground.Idle?
    case FillStep(fill) => FillEnabled(s, fill)
    case TaskStep(id, task) => TaskEnabled(s, id, task)
  }

  function PruneAuction(u: Process, auction: Id): Process
    requires u.Up?
  {
    u.(bids := u.bids - {auction},
       awarded := if auction in u.awarded && u.awarded[auction].None? then u.awarded - {auction} else u.awarded)
  }

  /** One step; an event that is not enabled changes nothing. */
  ghost function Step(s: State, e: Event): State {
    if !Enabled(s, e) then s else
      match e
      case Crash => s.(process := Down)
      case Restart(awarded) => StepRestart(s, awarded)
      case StartFeed => s.(process := s.process.(bidding := true))
      case Bid(auction) => s.(process := s.process.(bids := s.process.bids + {auction}))
      case Prune(auction) => s.(process := PruneAuction(s.process, auction))
      case Deliver(award) => StepDeliver(s, award)
      case FillStep(fill) => StepFill(s, fill)
      case TaskStep(id, task) => StepTask(s, id, task)
  }

  ghost function Run(s: State, events: seq<Event>): State {
    if events == [] then s else Step(Run(s, events[..|events| - 1]), events[|events| - 1])
  }
}
