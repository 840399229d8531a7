/** SOLVER_STATE_FILE as one process keeps it: memory changed first, rewritten whole, rolled back on failure. */
module FillStateFile {
  import opened StateFormat
  import opened StateDocument
  import opened OrderedMap
  import opened Text
  import opened DurableMap
  import opened AtomicRewrite
  import opened Wrappers

  /** The file itself. */
  datatype File = Absent | NotJson | Holds(doc: Value)

  function LoadFile(file: File): Result<Loaded> {
    match file
    case Absent => Ok(Loaded([], [], {}))
    case NotJson => Err
    case Holds(doc) => Load(doc)
  }

  ghost predicate WellFormed(file: File) {
    file.Holds? ==> IsJson(file.doc)
  }

  ghost function OrdersOn(file: File): map<string, Record>
    requires LoadFile(file).Ok? && Distinct(LoadFile(file).value.orders) && Writable(LoadFile(file).value.orders)
  {
    ToMap(Persisted(LoadFile(file).value.orders))
  }

  lemma LoadFileSound(file: File)
    requires WellFormed(file) && LoadFile(file).Ok?
    ensures var l := LoadFile(file).value; Sound(l.orders) && Undecodable(l.unreadable) && l.held == Held(l.unreadable)
  {
    if file.Holds? {
      LoadedSurvives(file.doc);
    }
  }

  /** No file is no orders; one that is not JSON, or not of the right form, does not load. */
  lemma FileLoadsExactly(file: File)
    ensures LoadFile(file).Ok? <==>
            file.Absent? ||
            (file.Holds? && FillsList(file.doc)
             && forall i :: 0 <= i < |file.doc.fields[Fills].items| ==>
                              Decode(file.doc.fields[Fills].items[i]).Ok? || NamesOrder(file.doc.fields[Fills].items[i]))
    ensures file.Absent? ==> LoadFile(file).value == Loaded([], [], {})
    ensures file.Holds? && LoadFile(file).Ok? ==> LoadedFrom(file.doc.fields[Fills].items, LoadFile(file).value)
  {
    if file.Holds? {
      LoadsExactly(file.doc);
    }
  }

  lemma PersistedDistinct(orders: Orders)
    requires Distinct(orders) && Writable(orders)
    ensures Distinct(Persisted(orders))
  {
  }

  lemma PersistedFind(orders: Orders, key: string)
    requires Writable(orders)
    ensures Find(Persisted(orders), key) == Find(orders, key)
  {
    FindIs(Persisted(orders), key, Find(orders, key));
  }

  lemma PersistedSet(orders: Orders, key: string, e: Record)
    requires Writable(orders) && Shaped(e)
    ensures Writable(Set(orders, key, e)) && Persisted(Set(orders, key, e)) == Set(Persisted(orders), key, Persistable(e))
  {
    PersistedFind(orders, key);
  }

  lemma PersistedDelete(orders: Orders, key: string)
    requires Writable(orders)
    ensures Writable(Delete(orders, key)) && Persisted(Delete(orders, key)) == Delete(Persisted(orders), key)
  {
    PersistedFind(orders, key);
    var n := Delete(orders, key);
    forall j | 0 <= j < |n| ensures Shaped(n[j].1) && (n[j].0, Persistable(n[j].1)) == Delete(Persisted(orders), key)[j] {
      DeletedFrom(orders, key, j);
      DeletedFrom(Persisted(orders), key, j);
    }
  }

  lemma SoundSet(orders: Orders, key: string, e: Record)
    requires Sound(orders) && SoundEntry(key, e)
    ensures Sound(Set(orders, key, e))
  {
    SetIsUpdate(orders, key, e);
    var n := Set(orders, key, e);
    forall j | 0 <= j < |n| ensures SoundEntry(n[j].0, n[j].1) {
      if j != Find(orders, key) {
        assert n[j] == orders[j];
      }
    }
  }

  lemma SoundDelete(orders: Orders, key: string)
    requires Sound(orders)
    ensures Sound(Delete(orders, key))
  {
    DeleteIsRemove(orders, key);
    var n := Delete(orders, key);
    forall j | 0 <= j < |n| ensures SoundEntry(n[j].0, n[j].1) {
      DeletedFrom(orders, key, j);
    }
  }

  lemma SavedLoads(orders: Orders, unreadable: seq<Value>)
    requires Sound(orders) && Undecodable(unreadable)
    ensures Writable(orders) && Distinct(Persisted(orders))
    ensures var file := Holds(Save(orders, unreadable));
            && LoadFile(file) == Ok(Loaded(Persisted(orders), unreadable, Held(unreadable)))
            && Sound(Persisted(orders)) && Writable(Persisted(orders))
            && OrdersOn(file) == ToMap(Persisted(orders))
  {
    SoundWritable(orders);
    PersistedDistinct(orders);
    FileRoundTrip(orders, unreadable);
    SoundPersisted(orders);
  }

  /** Memory is sound, and the file is one complete saved state that keeps the undecodable entries. */
  ghost predicate Ready(orders: Orders, unreadable: seq<Value>, file: File) {
    && Sound(orders) && Writable(orders) && Undecodable(unreadable)
    && LoadFile(file).Ok? && LoadFile(file).value.unreadable == unreadable
    && Sound(LoadFile(file).value.orders) && Writable(LoadFile(file).value.orders)
  }

  ghost function MemoryOf(orders: Orders): map<string, Record>
    requires Distinct(orders) && Writable(orders)
  {
    PersistedDistinct(orders);
    ToMap(Persisted(orders))
  }

  ghost function StoredIn(orders: Orders, unreadable: seq<Value>, file: File): Store<string, Record>
    requires Ready(orders, unreadable, file)
  {
    Store(MemoryOf(orders), OrdersOn(file))
  }

  /** A whole write of `next`: what memory and the file become, for each way it can end. */
  lemma WriteKeeps(orders: Orders, next: Orders, back: Orders, unreadable: seq<Value>, file: File, effect: Fault)
    requires Ready(orders, unreadable, file) && Sound(next) && Writable(next)
    requires Sound(back) && Writable(back) && MemoryOf(back) == MemoryOf(orders)
    ensures var after := if effect.NoFault? then next else back;
            var saved := if effect.BeforeRename? then file else Holds(Save(next, unreadable));
            && Ready(after, unreadable, saved)
            && StoredIn(after, unreadable, saved) == DurableMap.Write(StoredIn(orders, unreadable, file), MemoryOf(next), effect)
  {
    SavedLoads(next, unreadable);
  }

  lemma MemorySet(orders: Orders, key: string, e: Record)
    requires Distinct(orders) && Writable(orders) && Shaped(e)
    ensures var next := Set(orders, key, e);
            Distinct(next) && Writable(next) && MemoryOf(next) == MemoryOf(orders)[key := Persistable(e)]
  {
    SetIsUpdate(orders, key, e);
    PersistedSet(orders, key, e);
    PersistedDistinct(orders);
    SetIsUpdate(Persisted(orders), key, Persistable(e));
  }

  lemma MemoryDelete(orders: Orders, key: string)
    requires Distinct(orders) && Writable(orders)
    ensures var next := Delete(orders, key); Distinct(next) && Writable(next) && MemoryOf(next) == MemoryOf(orders) - {key}
  {
    DeleteIsRemove(orders, key);
    PersistedDistinct(orders);
    PersistedDelete(orders, key);
    DeleteIsRemove(Persisted(orders), key);
  }

  lemma MemoryHas(orders: Orders, key: string)
    requires Distinct(orders) && Writable(orders)
    ensures key in MemoryOf(orders) <==> Find(orders, key) < |orders|
    ensures key in MemoryOf(orders) ==> MemoryOf(orders)[key] == Persistable(orders[Find(orders, key)].1)
  {
    var i, persisted := Find(orders, key), Persisted(orders);
    PersistedDistinct(orders);
    PersistedFind(orders, key);
    InMap(persisted, key);
    if i < |orders| {
      assert persisted[i].1 == Persistable(orders[i].1);
    }
  }

  /** What a failed removal leaves in memory: the order back, now last. */
  function Restored(orders: Orders, key: string): Orders
    requires Find(orders, key) < |orders|
  {
    Set(Delete(orders, key), key, orders[Find(orders, key)].1)
  }

  lemma MemoryRestored(orders: Orders, key: string)
    requires Distinct(orders) && Writable(orders) && Find(orders, key) < |orders|
    ensures var back := Restored(orders, key); Distinct(back) && Writable(back) && MemoryOf(back) == MemoryOf(orders)
  {
    var e := orders[Find(orders, key)].1;
    MemoryHas(orders, key);
    MemoryDelete(orders, key);
    MemorySet(Delete(orders, key), key, e);
    MapBack(MemoryOf(orders), key);
  }

  lemma SoundRestored(orders: Orders, key: string)
    requires Sound(orders) && Find(orders, key) < |orders|
    ensures Sound(Restored(orders, key))
  {
    SoundDelete(orders, key);
    SoundSet(Delete(orders, key), key, orders[Find(orders, key)].1);
  }

  /** What a put changes memory to, and what undoing that gives. */
  lemma PutSound(orders: Orders, key: string, e: Record)
    requires Sound(orders) && Writable(orders) && SoundEntry(key, e)
    ensures var next := Set(orders, key, e);
            && Shaped(e) && Sound(next) && Writable(next) && MemoryOf(next) == MemoryOf(orders)[key := Persistable(e)]
            && (if Find(orders, key) < |orders| then Set(next, key, orders[Find(orders, key)].1) else Delete(next, key)) == orders
  {
    SoundShaped(key, e);
    SoundSet(orders, key, e);
    MemorySet(orders, key, e);
    SetBack(orders, key, e);
  }

  lemma RemoveSound(orders: Orders, key: string)
    requires Sound(orders) && Writable(orders) && Find(orders, key) < |orders|
    ensures var next, back := Delete(orders, key), Restored(orders, key);
            && Sound(next) && Writable(next) && MemoryOf(next) == MemoryOf(orders) - {key}
            && Sound(back) && Writable(back) && MemoryOf(back) == MemoryOf(orders)
  {
    SoundDelete(orders, key);
    SoundRestored(orders, key);
    MemoryDelete(orders, key);
    MemoryRestored(orders, key);
  }

  // The file on its volume.

  /** `JSON.stringify` and `JSON.parse`: the text of a JSON value parses to it, and whatever parses is JSON. */
  ghost predicate Codec(stringify: Value -> Bytes, parse: Bytes -> File) {
    && (forall v :: IsJson(v) ==> parse(stringify(v)) == Holds(v))
    && (forall text :: !parse(text).Absent? && WellFormed(parse(text)))
  }

  function FileOf(parse: Bytes -> File, content: Option<Bytes>): File {
    if content.None? then Absent else parse(content.value)
  }

  predicate LoadsWith(parse: Bytes -> File, content: Option<Bytes>, unreadable: seq<Value>) {
    var l := LoadFile(FileOf(parse, content));
    l.Ok? && l.value.unreadable == unreadable
  }

  /** Whatever power loss may bring back, the file loads and keeps the undecodable entries. */
  ghost predicate Recoverable(parse: Bytes -> File, possible: set<Option<Bytes>>, unreadable: seq<Value>) {
    forall content :: content in possible ==> LoadsWith(parse, content, unreadable)
  }

  lemma SavedText(stringify: Value -> Bytes, parse: Bytes -> File, orders: Orders, unreadable: seq<Value>)
    requires Codec(stringify, parse) && Writable(orders)
    ensures FileOf(parse, Some(TextOf(stringify, orders, unreadable))) == Holds(Save(orders, unreadable))
  {
    SaveIsJson(orders, unreadable);
  }

  function TextOf(stringify: Value -> Bytes, orders: Orders, unreadable: seq<Value>): Bytes {
    if Writable(orders) then stringify(Save(orders, unreadable)) else []
  }

  /** The content is the text of some saved orders. */
  ghost predicate IsSaved(stringify: Value -> Bytes, content: Option<Bytes>, unreadable: seq<Value>) {
    exists orders :: Sound(orders) && Writable(orders) && content == Some(TextOf(stringify, orders, unreadable))
  }

  /**
   At every moment of every run, through failing calls, short writes, kills and power losses, the
   state file loads, with every undecodable entry still in it.
   */
  lemma AlwaysLoads(w: Drive, events: seq<Event>, stringify: Value -> Bytes, parse: Bytes -> File, unreadable: seq<Value>)
    requires Init(w) && Codec(stringify, parse) && Undecodable(unreadable) && LoadsWith(parse, Content(w), unreadable)
    requires forall text :: text in Texts(w, events) ==> IsSaved(stringify, text, unreadable)
    ensures LoadsWith(parse, Content(Run(w, events)), unreadable)
  {
    AlwaysWhole(w, events);
    var content := Content(Run(w, events));
    if content in Texts(w, events) {
      var orders :| Sound(orders) && Writable(orders) && content == Some(TextOf(stringify, orders, unreadable));
      SavedText(stringify, parse, orders, unreadable);
      SavedLoads(orders, unreadable);
    }
  }

  class FillStateFile {
    const stringify: Value -> Bytes
    const parse: Bytes -> File
    var orders: Orders
    const unreadable: seq<Value>
    const held: set<string>
    var released: bool
    var lost: bool
    var disk: Drive
    /** What the state file may hold once power is lost. */
    ghost var possible: set<Option<Bytes>>

    ghost predicate OnVolume()
      reads this
    {
      Codec(stringify, parse) && Inv(disk, possible) && disk.process.Up? && disk.process.pc.Resting?
    }

    ghost predicate Valid()
      reads this
    {
      OnVolume() && Ready(orders, unreadable, OnDisk()) && held == Held(unreadable) && Recoverable(parse, possible, unreadable)
    }

    function OnDisk(): File
      reads this
    {
      FileOf(parse, Content(disk))
    }

    /** The orders in memory and on disk, each as its modelled fields. */
    ghost function Stored(): Store<string, Record>
      requires Valid()
      reads this
    {
      StoredIn(orders, unreadable, OnDisk())
    }

    /** How a write of `next` ends; one that never starts leaves what one failing before the rename leaves. */
    ghost function Effect(next: Orders, mine: bool, calls: Calls): Fault
      reads this`released, this`lost
    {
      if released || lost || !mine then BeforeRename else FaultOf(calls, |TextOf(stringify, next, unreadable)|)
    }

    constructor (w: Drive, stringify: Value -> Bytes, parse: Bytes -> File, ghost possible: set<Option<Bytes>>)
      requires Codec(stringify, parse) && Inv(w, possible) && w.process.Up? && w.process.pc.Resting?
      requires var l := LoadFile(FileOf(parse, Content(w))); l.Ok? && Recoverable(parse, possible, l.value.unreadable)
      ensures Valid() && disk == w && !released && !lost && this.stringify == stringify && this.parse == parse
      ensures orders == LoadFile(OnDisk()).value.orders && Stored().mem == Stored().disk
      ensures this.possible == possible
    {
      var l := LoadFile(FileOf(parse, Content(w))).value;
      this.stringify, this.parse, this.possible := stringify, parse, possible;
      orders, unreadable, held := l.orders, l.unreadable, l.held;
      released, lost, disk := false, false, w;
      new;
      LoadFileSound(FileOf(parse, Content(w)));
      SoundWritable(orders);
    }

    /**
     `mine`: the lease still names this process. The first time it does not, it is lost for good.
     Otherwise the file is rewritten call by call.
     */
    method Write(mine: bool, calls: Calls) returns (ok: bool)
      requires OnVolume() && Writable(orders)
      modifies this`lost, this`disk, this`possible
      ensures OnVolume() && ok == old(Effect(orders, mine, calls)).NoFault?
      ensures lost == (old(lost) || (!released && !mine))
      ensures OnDisk() == if old(Effect(orders, mine, calls)).BeforeRename? then old(OnDisk()) else Holds(Save(orders, unreadable))
      ensures possible <= old(possible) + {Some(TextOf(stringify, orders, unreadable))}
      ensures ok ==> possible == {Some(TextOf(stringify, orders, unreadable))}
      ensures released || old(lost) || !mine ==> disk == old(disk)
      ensures !(released || old(lost) || !mine) ==> ByCalls(Begun(old(disk), TextOf(stringify, orders, unreadable)), disk)
    {
      if released || lost { return false; }
      if !mine {
        lost := true;
        return false;
      }
      var text := TextOf(stringify, orders, unreadable);
      SavedText(stringify, parse, orders, unreadable);
      disk, ok := Rewrite(disk, text, calls, possible);
      possible := if ok then {Some(text)} else possible + {Some(text)};
    }

    /** Memory changed to `next`, the file rewritten, and memory put `back` if that failed. */
    method Replace(next: Orders, back: Orders, mine: bool, calls: Calls) returns (ok: bool)
      requires Valid() && Sound(next) && Writable(next) && Sound(back) && Writable(back) && MemoryOf(back) == MemoryOf(orders)
      modifies this`orders, this`lost, this`disk, this`possible
      ensures Valid() && ok == old(Effect(next, mine, calls)).NoFault?
      ensures lost == (old(lost) || (!released && !mine))
      ensures orders == if ok then next else back
      ensures Stored() == DurableMap.Write(old(Stored()), MemoryOf(next), old(Effect(next, mine, calls)))
    {
      ghost var effect := Effect(next, mine, calls);
      WriteKeeps(orders, next, back, unreadable, OnDisk(), effect);
      SavedRecovers(stringify, parse, next, unreadable);
      orders := next;
      ok := Write(mine, calls);
      if !ok {
        orders := back;
      }
    }

    /** One order written or replaced: on disk before memory says so, and in neither if the write fails in time. */
    method Put(e: Record, mine: bool, calls: Calls) returns (ok: bool)
      requires Valid() && NamesOrder(Obj(e)) && SoundEntry(OrderOf(Obj(e)), e)
      modifies this`orders, this`lost, this`disk, this`possible
      ensures Valid() && ok == old(Effect(Set(orders, OrderOf(Obj(e)), e), mine, calls)).NoFault?
      ensures lost == (old(lost) || (!released && !mine))
      ensures orders == if ok then Set(old(orders), OrderOf(Obj(e)), e) else old(orders)
      ensures Stored() == DurableMap.Put(old(Stored()), OrderOf(Obj(e)), Persistable(e),
                                         old(Effect(Set(orders, OrderOf(Obj(e)), e), mine, calls)))
    {
      var key := OrderOf(Obj(e));
      var at := Find(orders, key);
      var next := Set(orders, key, e);
      PutSound(orders, key, e);
      ok := Replace(next, if at < |orders| then Set(next, key, orders[at].1) else Delete(next, key), mine, calls);
    }

    /** One order dropped. After a failed write it is back, last in memory's order. */
    method Remove(order: string, mine: bool, calls: Calls) returns (ok: bool)
      requires Valid()
      modifies this`orders, this`lost, this`disk, this`possible
      ensures Valid()
      ensures var effect := old(Effect(Delete(orders, Lower(order)), mine, calls));
              && ok == (old(Find(orders, Lower(order)) == |orders|) || effect.NoFault?)
              && Stored() == DurableMap.Remove(old(Stored()), Lower(order), effect)
      ensures ok ==> orders == Delete(old(orders), Lower(order))
      ensures !ok ==> old(Find(orders, Lower(order)) < |orders|) && orders == Restored(old(orders), Lower(order))
    {
      var key := Lower(order);
      var at := Find(orders, key);
      MemoryHas(orders, key);
      if at == |orders| { return true; }
      RemoveSound(orders, key);
      ok := Replace(Delete(orders, key), Set(Delete(orders, key), key, orders[at].1), mine, calls);
    }

    /** Closed for good: `Effect` is then a failure before the rename, whatever is tried. */
    method Close()
      modifies this`released
      ensures released
    {
      released := true;
    }
  }

  lemma SavedRecovers(stringify: Value -> Bytes, parse: Bytes -> File, orders: Orders, unreadable: seq<Value>)
    requires Codec(stringify, parse) && Sound(orders) && Writable(orders) && Undecodable(unreadable)
    ensures LoadsWith(parse, Some(TextOf(stringify, orders, unreadable)), unreadable)
  {
    SavedText(stringify, parse, orders, unreadable);
    SavedLoads(orders, unreadable);
  }

  /**
   A start: the lease is taken, then the file is read. A file that does not load refuses the start
   and gives the lease back; nothing is written either way.
   */
  method OpenStateFile(w: Drive, stringify: Value -> Bytes, parse: Bytes -> File, acquired: bool,
                       ghost possible: set<Option<Bytes>>)
    returns (state: FillStateFile?, leased: bool)
    requires Codec(stringify, parse) && Inv(w, possible) && w.process.Up? && w.process.pc.Resting?
    requires LoadFile(FileOf(parse, Content(w))).Ok? ==>
               Recoverable(parse, possible, LoadFile(FileOf(parse, Content(w))).value.unreadable)
    ensures leased <==> state != null
    ensures leased <==> acquired && LoadFile(FileOf(parse, Content(w))).Ok?
    ensures leased ==> fresh(state) && state.Valid() && state.disk == w && state.Stored().mem == state.Stored().disk
  {
    state, leased := null, acquired;
    if !leased { return; }
    if LoadFile(FileOf(parse, Content(w))).Err? {
      leased := false;
      return;
    }
    state := new FillStateFile(w, stringify, parse, possible);
  }
}
