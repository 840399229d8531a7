/**
 A file rewritten whole by one process at a time: unlink the temp file, create it, write it,
 fsync it, rename it over the file, fsync the directory. One system call a step; any of them may
 fail, a write may be short, and the process may be killed or the power lost between any two.

 The volume keeps what power loss can undo: the data of a file not yet fsynced may come back as
 anything, and each name may come back as it was at any time since the directory was last fsynced.
 */
module AtomicRewrite {
  import opened DurableMap
  import opened Wrappers

  type Bytes = seq<bv8>

  /** The temp file is named for the process's lease token. */
  datatype Path = StateFile | Temp(token: nat)

  type Directory = map<Path, nat>

  datatype Inode = Inode(data: Bytes, synced: bool)

  /** `dirs`: the directory when last fsynced, and after each change since; the last is the current one. */
  datatype Volume = Volume(inodes: seq<Inode>, dirs: seq<Directory>)

  /** The call a write makes next. */
  datatype Pc = Resting | Unlinking | Opening | Writing | Syncing | Renaming | SyncingDirectory

  datatype Process = Down | Up(token: nat, pc: Pc, text: Bytes, inode: nat)

  datatype World = World(volume: Volume, process: Process, nextToken: nat)

  datatype Event =
    | Start
    | Begin(text: Bytes)
    | Call(ok: bool, count: int) // the call pending; `count` is what a `write` took
    | Kill
    | PowerLoss(dir: Directory, junk: seq<Bytes>)

  type Drive = w: World | |w.volume.dirs| > 0 witness World(Volume([], [map[]]), Down, 0)

  function Current(v: Volume): Directory
    requires |v.dirs| > 0
  {
    v.dirs[|v.dirs| - 1]
  }

  function Changed(v: Volume, dir: Directory): Volume {
    v.(dirs := v.dirs + [dir])
  }

  function ContentIn(inodes: seq<Inode>, dir: Directory): Option<Bytes> {
    if StateFile in dir && dir[StateFile] < |inodes| then Some(inodes[dir[StateFile]].data) else None
  }

  /** What a reader of the state file finds. */
  function Content(w: Drive): Option<Bytes> {
    ContentIn(w.volume.inodes, Current(w.volume))
  }

  // The calls.

  function At(w: Drive, pc: Pc): Drive
    requires w.process.Up?
  {
    w.(process := w.process.(pc := pc))
  }

  function Unlinked(w: Drive): Drive
    requires w.process.Up?
  {
    var temp := Temp(w.process.token);
    At(if temp in Current(w.volume) then w.(volume := Changed(w.volume, Current(w.volume) - {temp})) else w, Opening)
  }

  /** O_EXCL: an existing file fails the open. */
  function Opened(w: Drive): Drive
    requires w.process.Up?
  {
    var temp, i := Temp(w.process.token), |w.volume.inodes|;
    if temp in Current(w.volume) then At(w, Resting) else
      w.(volume := Volume(w.volume.inodes + [Inode([], false)], w.volume.dirs + [Current(w.volume)[temp := i]]),
         process := w.process.(inode := i, pc := if w.process.text == [] then Syncing else Writing))
  }

  /** At most what was asked for is taken, and none is an error. */
  function Wrote(w: Drive, count: int): Drive
    requires w.process.Up?
  {
    var u, inodes := w.process, w.volume.inodes;
    if u.inode >= |inodes| || count <= 0 || |inodes[u.inode].data| >= |u.text| then At(w, Resting) else
      var offset := |inodes[u.inode].data|;
      var end := if count <= |u.text| - offset then offset + count else |u.text|;
      var data := inodes[u.inode].data + u.text[offset..end];
      At(w.(volume := w.volume.(inodes := inodes[u.inode := Inode(data, false)])), if end == |u.text| then Syncing else Writing)
  }

  function Synced(w: Drive): Drive
    requires w.process.Up?
  {
    var i, inodes := w.process.inode, w.volume.inodes;
    if i >= |inodes| then At(w, Resting) else
      At(w.(volume := w.volume.(inodes := inodes[i := inodes[i].(synced := true)])), Renaming)
  }

  function Renamed(w: Drive): Drive
    requires w.process.Up?
  {
    var dir := (Current(w.volume) - {Temp(w.process.token)})[StateFile := w.process.inode];
    At(w.(volume := Changed(w.volume, dir)), SyncingDirectory)
  }

  function DirectorySynced(w: Drive): Drive
    requires w.process.Up?
  {
    At(w.(volume := w.volume.(dirs := [Current(w.volume)])), Resting)
  }

  /** The pending call made; one that fails ends the write with an exception. */
  function Called(w: Drive, ok: bool, count: int): Drive
    requires w.process.Up?
  {
    if !ok then At(w, Resting) else
      match w.process.pc
      case Resting => w
      case Unlinking => Unlinked(w)
      case Opening => Opened(w)
      case Writing => Wrote(w, count)
      case Syncing => Synced(w)
      case Renaming => Renamed(w)
      case SyncingDirectory => DirectorySynced(w)
  }

  function Begun(w: Drive, text: Bytes): Drive
    requires w.process.Up?
  {
    w.(process := w.process.(pc := Unlinking, text := text))
  }

  // Runs.

  /** Each name comes back as it was at some time since the last fsync of the directory. */
  ghost predicate Survives(dirs: seq<Directory>, dir: Directory) {
    && (forall p :: p in dir ==> exists k :: 0 <= k < |dirs| && p in dirs[k] && dirs[k][p] == dir[p])
    && (forall p :: p !in dir ==> exists k :: 0 <= k < |dirs| && p !in dirs[k])
  }

  function Recovered(inodes: seq<Inode>, junk: seq<Bytes>): seq<Inode>
    requires |inodes| == |junk|
  {
    seq(|inodes|, i requires 0 <= i < |inodes| => if inodes[i].synced then inodes[i] else Inode(junk[i], true))
  }

  ghost predicate Enabled(w: Drive, e: Event) {
    match e
    case Start => w.process.Down?
    case Begin(_) => w.process.Up? && w.process.pc.Resting?
    case Call(_, _) => w.process.Up? && !w.process.pc.Resting?
    case Kill => w.process.Up?
    case PowerLoss(dir, junk) => |junk| == |w.volume.inodes| && Survives(w.volume.dirs, dir)
  }

  /** One step; an event that is not enabled changes nothing. */
  ghost function Step(w: Drive, e: Event): Drive {
    if !Enabled(w, e) then w else
      match e
      case Start => w.(process := Up(w.nextToken, Resting, [], 0), nextToken := w.nextToken + 1)
      case Begin(text) => Begun(w, text)
      case Call(ok, count) => Called(w, ok, count)
      case Kill => w.(process := Down)
      case PowerLoss(dir, junk) => w.(volume := Volume(Recovered(w.volume.inodes, junk), [dir]), process := Down)
  }

  ghost function Run(w: Drive, events: seq<Event>): Drive {
    if events == [] then w else Step(Run(w, events[..|events| - 1]), events[|events| - 1])
  }

  /** A volume with nothing in flight. */
  ghost predicate Init(w: Drive) {
    && w.process.Down? && |w.volume.dirs| == 1
    && (StateFile in Current(w.volume) ==>
          var i := Current(w.volume)[StateFile]; i < |w.volume.inodes| && w.volume.inodes[i].synced)
  }

  // The invariant, for the set of contents the state file may have.

  /** Whichever directory comes back, the state file is absent or fsynced, with an allowed content. */
  ghost predicate DirOk(inodes: seq<Inode>, dir: Directory, allowed: set<Option<Bytes>>) {
    && (StateFile in dir ==> dir[StateFile] < |inodes| && inodes[dir[StateFile]].synced)
    && ContentIn(inodes, dir) in allowed
  }

  ghost predicate VolumeOk(v: Volume, allowed: set<Option<Bytes>>) {
    |v.dirs| > 0 && forall k :: 0 <= k < |v.dirs| ==> DirOk(v.inodes, v.dirs[k], allowed)
  }

  /** The temp file is no directory's state file, and holds what has been written of the text. */
  ghost predicate TempOk(v: Volume, u: Process)
    requires u.Up?
  {
    && u.inode < |v.inodes|
    && (forall k :: 0 <= k < |v.dirs| && StateFile in v.dirs[k] ==> v.dirs[k][StateFile] != u.inode)
    && v.inodes[u.inode].data <= u.text
    && (u.pc.Writing? ==> |v.inodes[u.inode].data| < |u.text|)
    && (u.pc.Syncing? || u.pc.Renaming? ==> v.inodes[u.inode].data == u.text)
    && (u.pc.Renaming? ==> v.inodes[u.inode].synced)
  }

  ghost predicate Inv(w: Drive, allowed: set<Option<Bytes>>) {
    && VolumeOk(w.volume, allowed)
    && (w.process.Up? ==>
          && (!w.process.pc.Resting? ==> Some(w.process.text) in allowed)
          && (w.process.pc in {Writing, Syncing, Renaming} ==> TempOk(w.volume, w.process))
          && (w.process.pc.SyncingDirectory? ==> Content(w) == Some(w.process.text)))
  }

  lemma InvGrows(w: Drive, allowed: set<Option<Bytes>>, more: set<Option<Bytes>>)
    requires Inv(w, allowed) && allowed <= more
    ensures Inv(w, more)
  {
  }

  lemma UnlinkedKeeps(w: Drive, allowed: set<Option<Bytes>>)
    requires Inv(w, allowed) && w.process.Up? && w.process.pc.Unlinking?
    ensures Inv(Unlinked(w), allowed) && Content(Unlinked(w)) == Content(w)
    ensures Temp(w.process.token) !in Current(Unlinked(w).volume)
  {
  }

  lemma OpenedKeeps(w: Drive, allowed: set<Option<Bytes>>)
    requires Inv(w, allowed) && w.process.Up? && w.process.pc.Opening?
    ensures Inv(Opened(w), allowed) && Content(Opened(w)) == Content(w)
  {
  }

  lemma WroteKeeps(w: Drive, count: int, allowed: set<Option<Bytes>>)
    requires Inv(w, allowed) && w.process.Up? && w.process.pc.Writing?
    ensures Inv(Wrote(w, count), allowed) && Content(Wrote(w, count)) == Content(w)
  {
  }

  lemma SyncedKeeps(w: Drive, allowed: set<Option<Bytes>>)
    requires Inv(w, allowed) && w.process.Up? && w.process.pc.Syncing?
    ensures Inv(Synced(w), allowed) && Content(Synced(w)) == Content(w)
  {
  }

  lemma RenamedKeeps(w: Drive, allowed: set<Option<Bytes>>)
    requires Inv(w, allowed) && w.process.Up? && w.process.pc.Renaming?
    ensures Inv(Renamed(w), allowed) && Content(Renamed(w)) == Some(w.process.text)
  {
  }

  /** Once the directory is fsynced, only its current content can come back. */
  lemma DirectorySyncedKeeps(w: Drive, allowed: set<Option<Bytes>>)
    requires Inv(w, allowed) && w.process.Up? && w.process.pc.SyncingDirectory?
    ensures Inv(DirectorySynced(w), {Some(w.process.text)}) && Inv(DirectorySynced(w), allowed)
  {
  }

  lemma CalledKeeps(w: Drive, ok: bool, count: int, allowed: set<Option<Bytes>>)
    requires Inv(w, allowed) && w.process.Up? && !w.process.pc.Resting?
    ensures Inv(Called(w, ok, count), allowed)
  {
    if ok {
      match w.process.pc
      case Unlinking => UnlinkedKeeps(w, allowed);
      case Opening => OpenedKeeps(w, allowed);
      case Writing => WroteKeeps(w, count, allowed);
      case Syncing => SyncedKeeps(w, allowed);
      case Renaming => RenamedKeeps(w, allowed);
      case SyncingDirectory => DirectorySyncedKeeps(w, allowed);
    }
  }

  lemma PowerLossKeeps(w: Drive, dir: Directory, junk: seq<Bytes>, allowed: set<Option<Bytes>>)
    requires Inv(w, allowed) && Enabled(w, PowerLoss(dir, junk))
    ensures Inv(Step(w, PowerLoss(dir, junk)), allowed)
  {
    var v := w.volume;
    var k :| 0 <= k < |v.dirs| && (StateFile in dir <==> StateFile in v.dirs[k])
             && (StateFile in dir ==> v.dirs[k][StateFile] == dir[StateFile]);
    assert DirOk(v.inodes, v.dirs[k], allowed);
    assert ContentIn(Recovered(v.inodes, junk), dir) == ContentIn(v.inodes, v.dirs[k]);
  }

  /** What an event adds to the contents the state file may have. */
  ghost function Adds(w: Drive, e: Event): set<Option<Bytes>> {
    if e.Begin? && Enabled(w, e) then {Some(e.text)} else {}
  }

  lemma StepKeeps(w: Drive, e: Event, allowed: set<Option<Bytes>>)
    requires Inv(w, allowed)
    ensures Inv(Step(w, e), allowed + Adds(w, e))
  {
    if Enabled(w, e) {
      match e
      case Begin(_) => InvGrows(w, allowed, allowed + Adds(w, e));
      case Call(ok, count) => CalledKeeps(w, ok, count, allowed);
      case PowerLoss(dir, junk) => PowerLossKeeps(w, dir, junk, allowed);
      case Start =>
      case Kill =>
    }
    assert !e.Begin? ==> allowed + Adds(w, e) == allowed;
    assert !Enabled(w, e) ==> allowed + Adds(w, e) == allowed;
  }

  /** The texts the run's writes began with. */
  ghost function Texts(w: Drive, events: seq<Event>): set<Option<Bytes>> {
    if events == [] then {} else
      Texts(w, events[..|events| - 1]) + Adds(Run(w, events[..|events| - 1]), events[|events| - 1])
  }

  lemma {:induction false} RunKeeps(w: Drive, events: seq<Event>, allowed: set<Option<Bytes>>)
    requires Inv(w, allowed)
    ensures Inv(Run(w, events), allowed + Texts(w, events))
  {
    if events == [] {
      assert allowed + Texts(w, events) == allowed;
    } else {
      var front, e := events[..|events| - 1], events[|events| - 1];
      RunKeeps(w, front, allowed);
      StepKeeps(Run(w, front), e, allowed + Texts(w, front));
      assert allowed + Texts(w, front) + Adds(Run(w, front), e) == allowed + Texts(w, events);
    }
  }

  lemma InitInv(w: Drive)
    requires Init(w)
    ensures Inv(w, {Content(w)})
  {
  }

  /**
   Whatever fails, and wherever the process is killed or the power lost, the state file holds what
   it held at first, or the whole text some write began with: never a part of either.
   */
  lemma AlwaysWhole(w: Drive, events: seq<Event>)
    requires Init(w)
    ensures Content(Run(w, events)) == Content(w) || Content(Run(w, events)) in Texts(w, events)
  {
    InitInv(w);
    RunKeeps(w, events, {Content(w)});
    var t := Run(w, events);
    assert DirOk(t.volume.inodes, Current(t.volume), {Content(w)} + Texts(w, events));
  }

  /**
   A write that has returned cannot be undone: after any kills and power losses the state file
   holds its text, or the whole text of a write begun since.
   */
  lemma ReturnedIsDurable(w: Drive, events: seq<Event>, count: int, later: seq<Event>)
    requires Init(w) && Run(w, events).process.Up? && Run(w, events).process.pc.SyncingDirectory?
    ensures var t := Run(w, events);
            var u := Step(t, Call(true, count));
            && Content(u) == Some(t.process.text)
            && (Content(Run(u, later)) == Some(t.process.text) || Content(Run(u, later)) in Texts(u, later))
  {
    var t := Run(w, events);
    var u := Step(t, Call(true, count));
    InitInv(w);
    RunKeeps(w, events, {Content(w)});
    DirectorySyncedKeeps(t, {Content(w)} + Texts(w, events));
    RunKeeps(u, later, {Some(t.process.text)});
    var v := Run(u, later).volume;
    assert DirOk(v.inodes, Current(v), {Some(t.process.text)} + Texts(u, later));
  }

  // Why the two fsyncs are there.

  /** What a write in progress has written is not yet durable. */
  ghost predicate InFlight(w: Drive) {
    w.process.Up? && w.process.pc in {Writing, Syncing} ==>
      w.process.inode < |w.volume.inodes| && !w.volume.inodes[w.process.inode].synced
  }

  lemma CalledInFlight(w: Drive, ok: bool, count: int)
    requires InFlight(w) && w.process.Up?
    ensures InFlight(Called(w, ok, count))
  {
  }

  lemma {:induction false} RunInFlight(w: Drive, events: seq<Event>)
    requires w.process.Down?
    ensures InFlight(Run(w, events))
  {
    if events != [] {
      var front, e := events[..|events| - 1], events[|events| - 1];
      RunInFlight(w, front);
      if e.Call? && Enabled(Run(w, front), e) {
        CalledInFlight(Run(w, front), e.ok, e.count);
      }
    }
  }

  /** Until its fsync has returned, power loss may leave anything in the file a write is about to rename into place. */
  lemma UnsyncedIsAnything(w: Drive, events: seq<Event>, junk: Bytes) returns (e: Event)
    requires w.process.Down? && Run(w, events).process.Up? && Run(w, events).process.pc.Syncing?
    ensures var t := Run(w, events);
            && e.PowerLoss? && Enabled(t, e)
            && t.process.inode < |t.volume.inodes| == |Step(t, e).volume.inodes|
            && Step(t, e).volume.inodes[t.process.inode].data == junk
  {
    RunInFlight(w, events);
    var t := Run(w, events);
    e := PowerLoss(Current(t.volume), seq(|t.volume.inodes|, _ => junk));
    assert Survives(t.volume.dirs, Current(t.volume)) by {
      assert t.volume.dirs[|t.volume.dirs| - 1] == Current(t.volume);
    }
  }

  /** And until the directory's has, power loss may take the rename back: the state file is the old one again. */
  lemma RenameMayBeUndone(w: Drive, events: seq<Event>, count: int) returns (e: Event)
    requires Init(w) && Run(w, events).process.Up? && Run(w, events).process.pc.Renaming?
    ensures var t := Run(w, events);
            var renamed := Step(t, Call(true, count));
            && Content(renamed) == Some(t.process.text) && e.PowerLoss? && Enabled(renamed, e)
            && Content(Step(renamed, e)) == Content(t)
  {
    var t := Run(w, events);
    InitInv(w);
    RunKeeps(w, events, {Content(w)});
    RenamedKeeps(t, {Content(w)} + Texts(w, events));
    var renamed := Step(t, Call(true, count));
    var v := renamed.volume;
    e := PowerLoss(Current(t.volume), seq(|v.inodes|, _ => []));
    assert v.dirs[|v.dirs| - 2] == Current(t.volume);
    assert Survives(v.dirs, Current(t.volume));
    assert DirOk(t.volume.inodes, t.volume.dirs[|t.volume.dirs| - 1], {Content(w)} + Texts(w, events));
  }

  // One write, run through.

  /** How each call of a write goes; `count(offset)` is what `write(2)` takes at an offset. */
  datatype Calls = Calls(unlinks: bool, opens: bool, count: nat -> int, syncs: bool, renames: bool, syncsDirectory: bool)

  /** Write by write the rest is taken; none or a negative count is an error. */
  predicate TakesAll(count: nat -> int, offset: nat, size: nat)
    decreases size - offset
  {
    offset >= size
    || (count(offset) > 0 && (count(offset) > size - offset || TakesAll(count, offset + count(offset), size)))
  }

  /** What the caller and the disk see of a write: done, failed with the disk untouched, or failed with it replaced. */
  function FaultOf(calls: Calls, size: nat): Fault {
    if !calls.unlinks || !calls.opens || !TakesAll(calls.count, 0, size) || !calls.syncs || !calls.renames then BeforeRename
    else if !calls.syncsDirectory then AfterRename
    else NoFault
  }

  ghost predicate AllCalls(events: seq<Event>) {
    forall i :: 0 <= i < |events| ==> events[i].Call?
  }

  /** Calls alone lead from one to the other. */
  ghost predicate ByCalls(w: Drive, v: Drive) {
    exists events :: AllCalls(events) && v == Run(w, events)
  }

  lemma NoCalls(w: Drive)
    ensures ByCalls(w, w)
  {
    assert AllCalls([]) && w == Run(w, []);
  }

  lemma OneMoreCall(w: Drive, v: Drive, ok: bool, count: int)
    requires ByCalls(w, v) && v.process.Up? && !v.process.pc.Resting?
    ensures ByCalls(w, Called(v, ok, count))
  {
    var events :| AllCalls(events) && v == Run(w, events);
    var more := events + [Call(ok, count)];
    assert more[..|events|] == events;
    assert AllCalls(more) && Called(v, ok, count) == Run(w, more);
  }

  /** A call leaves the state file alone, or the text is renamed into it. */
  lemma CallContent(w: Drive, ok: bool, count: int, allowed: set<Option<Bytes>>)
    requires Inv(w, allowed) && w.process.Up? && !w.process.pc.Resting?
    ensures var v := Called(w, ok, count);
            && v.process.Up? && v.process.text == w.process.text && v.process.token == w.process.token
            && Content(v) == if ok && w.process.pc.Renaming? then Some(w.process.text) else Content(w)
  {
    if ok {
      match w.process.pc
      case Unlinking => UnlinkedKeeps(w, allowed);
      case Opening => OpenedKeeps(w, allowed);
      case Writing => WroteKeeps(w, count, allowed);
      case Syncing => SyncedKeeps(w, allowed);
      case Renaming => RenamedKeeps(w, allowed);
      case SyncingDirectory =>
    }
  }

  /** A process killed inside a write leaves what a write that failed before or after its rename leaves. */
  lemma {:induction false} KilledWriteIsEither(w: Drive, text: Bytes, events: seq<Event>, allowed: set<Option<Bytes>>)
    requires Inv(w, allowed) && w.process.Up? && w.process.pc.Resting? && AllCalls(events)
    ensures var v := Run(Begun(w, text), events);
            && Inv(v, allowed + {Some(text)}) && v.process.Up? && v.process.text == text
            && (Content(v) == Content(w) || Content(v) == Some(text))
            && Content(Step(v, Kill)) == Content(v)
  {
    if events == [] {
      StepKeeps(w, Begin(text), allowed);
    } else {
      var front, e := events[..|events| - 1], events[|events| - 1];
      KilledWriteIsEither(w, text, front, allowed);
      var v := Run(Begun(w, text), front);
      if !v.process.pc.Resting? {
        CalledKeeps(v, e.ok, e.count, allowed + {Some(text)});
        CallContent(v, e.ok, e.count, allowed + {Some(text)});
      }
    }
  }

  /** The pending call, made. */
  method MakeCall(ghost w: Drive, u: Drive, done: bool, count: int, ghost allowed: set<Option<Bytes>>) returns (v: Drive)
    requires Inv(u, allowed) && u.process.Up? && !u.process.pc.Resting? && ByCalls(w, u)
    ensures v == Called(u, done, count) && Inv(v, allowed) && ByCalls(w, v)
    ensures v.process.Up? && v.process.text == u.process.text && v.process.token == u.process.token
    ensures Content(v) == if done && u.process.pc.Renaming? then Some(u.process.text) else Content(u)
  {
    CalledKeeps(u, done, count, allowed);
    CallContent(u, done, count, allowed);
    OneMoreCall(w, u, done, count);
    v := Called(u, done, count);
  }

  /** How much of its temp file a write has written. */
  function Offset(w: Drive): nat
    requires w.process.Up? && w.process.inode < |w.volume.inodes|
  {
    |w.volume.inodes[w.process.inode].data|
  }

  lemma WroteTakes(w: Drive, count: nat -> int, allowed: set<Option<Bytes>>)
    requires Inv(w, allowed) && w.process.Up? && w.process.pc.Writing?
    ensures var v := Wrote(w, count(Offset(w)));
            && v.process.Up? && v.process.inode == w.process.inode && |v.volume.inodes| == |w.volume.inodes|
            && (v.process.pc.Resting? <==> count(Offset(w)) <= 0)
            && (v.process.pc.Resting? || v.process.pc.Syncing? || (v.process.pc.Writing? && Offset(w) < Offset(v)))
            && (TakesAll(count, Offset(w), |w.process.text|) <==>
                v.process.pc.Syncing? || (v.process.pc.Writing? && TakesAll(count, Offset(v), |w.process.text|)))
  {
  }

  /** The loop of `writeNewFile`, a count at a time. A short count never passes for the whole text. */
  method WriteAll(w: Drive, count: nat -> int, ghost allowed: set<Option<Bytes>>) returns (v: Drive)
    requires Inv(w, allowed) && w.process.Up? && w.process.pc.Writing?
    ensures v.process.Up? && v.process.text == w.process.text && v.process.token == w.process.token
    ensures v.process.pc == if TakesAll(count, Offset(w), |w.process.text|) then Syncing else Resting
    ensures Inv(v, allowed) && Content(v) == Content(w) && ByCalls(w, v)
  {
    NoCalls(w);
    v := w;
    while v.process.pc.Writing?
      invariant Inv(v, allowed) && Content(v) == Content(w) && ByCalls(w, v)
      invariant v.process.Up? && v.process.text == w.process.text && v.process.token == w.process.token
      invariant v.process.pc.Resting? || v.process.pc.Syncing? || v.process.pc.Writing?
      invariant TakesAll(count, Offset(w), |w.process.text|) <==>
                  v.process.pc.Syncing? || (v.process.pc.Writing? && TakesAll(count, Offset(v), |w.process.text|))
      decreases if v.process.pc.Writing? then 1 + |w.process.text| - Offset(v) else 0
    {
      WroteTakes(v, count, allowed);
      v := MakeCall(w, v, true, count(Offset(v)), allowed);
    }
  }

  /** `writeNewFile`: the file created, written and fsynced. */
  method WriteNewFile(w: Drive, calls: Calls, ghost allowed: set<Option<Bytes>>) returns (v: Drive, ok: bool)
    requires Inv(w, allowed) && w.process.Up? && w.process.pc.Opening? && Temp(w.process.token) !in Current(w.volume)
    ensures ok <==> calls.opens && TakesAll(calls.count, 0, |w.process.text|) && calls.syncs
    ensures v.process.Up? && v.process.text == w.process.text && v.process.token == w.process.token
    ensures v.process.pc == if ok then Renaming else Resting
    ensures Inv(v, allowed) && Content(v) == Content(w) && ByCalls(w, v)
  {
    NoCalls(w);
    v := MakeCall(w, w, calls.opens, 0, allowed);
    if !calls.opens { return v, false; }
    if v.process.pc.Writing? {
      ghost var created := v;
      v := WriteAll(v, calls.count, allowed);
      ChainCalls(w, created, v);
      if !v.process.pc.Syncing? { return v, false; }
    }
    v := MakeCall(w, v, calls.syncs, 0, allowed);
    ok := calls.syncs;
  }

  /** `write`: what it leaves in each of the three ways it can end, by calls of the machine alone. */
  method Rewrite(w: Drive, text: Bytes, calls: Calls, ghost allowed: set<Option<Bytes>>) returns (v: Drive, ok: bool)
    requires Inv(w, allowed) && w.process.Up? && w.process.pc.Resting?
    ensures ok == FaultOf(calls, |text|).NoFault?
    ensures Content(v) == if FaultOf(calls, |text|).BeforeRename? then Content(w) else Some(text)
    ensures v.process.Up? && v.process.pc.Resting? && v.process.token == w.process.token
    ensures Inv(v, if ok then {Some(text)} else allowed + {Some(text)})
    ensures ByCalls(Step(w, Begin(text)), v)
  {
    ghost var more := allowed + {Some(text)};
    ghost var begun := Begun(w, text);
    StepKeeps(w, Begin(text), allowed);
    NoCalls(begun);
    v := Begun(w, text);
    UnlinkedKeeps(v, more);
    v := MakeCall(begun, v, calls.unlinks, 0, more);
    if !calls.unlinks { return v, false; }
    ghost var opening := v;
    v, ok := WriteNewFile(v, calls, more);
    ChainCalls(begun, opening, v);
    if !ok { return v, false; }
    v := MakeCall(begun, v, calls.renames, 0, more);
    if !calls.renames { return v, false; }
    DirectorySyncedKeeps(v, more);
    v := MakeCall(begun, v, calls.syncsDirectory, 0, more);
    ok := calls.syncsDirectory;
  }

  lemma ChainCalls(u: Drive, v: Drive, w: Drive)
    requires ByCalls(u, v) && ByCalls(v, w)
    ensures ByCalls(u, w)
  {
    var front :| AllCalls(front) && v == Run(u, front);
    var rest :| AllCalls(rest) && w == Run(v, rest);
    RunConcat(u, front, rest);
    assert AllCalls(front + rest);
  }

  lemma {:induction false} RunConcat(w: Drive, front: seq<Event>, rest: seq<Event>)
    ensures Run(w, front + rest) == Run(Run(w, front), rest)
  {
    if rest == [] {
      assert front + rest == front;
    } else {
      RunConcat(w, front, rest[..|rest| - 1]);
      assert (front + rest)[..|front + rest| - 1] == front + rest[..|rest| - 1];
    }
  }
}
