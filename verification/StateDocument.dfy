/** The whole of SOLVER_STATE_FILE: its entries, its undecodable ones, and the load that tells them apart. */
module StateDocument {
  import opened StateFormat
  import opened OrderedMap
  import opened Text
  import opened Wrappers

  type Orders = Entries<string, Record>

  datatype Loaded = Loaded(orders: Orders, unreadable: seq<Value>, held: set<string>)

  predicate NamesOrder(v: Value) {
    v.Obj? && Prepared in v.fields && v.fields[Prepared].Obj? && HasStr(v.fields[Prepared].fields, OrderId)
  }

  function OrderOf(v: Value): string
    requires NamesOrder(v)
  {
    Lower(v.fields[Prepared].fields[OrderId].s)
  }

  lemma DecodedNames(v: Value)
    requires Decode(v).Ok?
    ensures NamesOrder(Obj(Decode(v).value))
  {
    IdsSpared();
    DecodedHeaded(v, BIGINT_PATHS);
  }

  /** An entry of the file and what decoding it gave. */
  datatype Item = Item(raw: Value, decoded: Result<Record>)

  predicate Named(item: Item) {
    item.decoded.Ok? ==> NamesOrder(Obj(item.decoded.value))
  }

  function Decoded(items: seq<Value>): seq<Item> {
    seq(|items|, i requires 0 <= i < |items| => Item(items[i], Decode(items[i])))
  }

  lemma AllNamed(items: seq<Value>)
    ensures forall i :: 0 <= i < |items| ==> Named(Decoded(items)[i])
  {
    forall i | 0 <= i < |items| ensures Named(Decoded(items)[i]) {
      if Decode(items[i]).Ok? {
        DecodedNames(items[i]);
      }
    }
  }

  /** Entries in file order, those that decode apart from those that do not; a nameless undecodable one refuses the file. */
  function Scan(items: seq<Item>): (r: Result<(seq<Record>, seq<Value>)>)
    requires forall i :: 0 <= i < |items| ==> Named(items[i])
    ensures r.Ok? ==> forall i :: 0 <= i < |r.value.0| ==> NamesOrder(Obj(r.value.0[i]))
    ensures r.Ok? ==> forall i :: 0 <= i < |r.value.1| ==> NamesOrder(r.value.1[i])
  {
    if items == [] then Ok(([], [])) else
      var last := items[|items| - 1];
      match Scan(items[..|items| - 1])
      case Err => Err
      case Ok((records, unreadable)) =>
        assert Named(last);
        if last.decoded.Ok? then Ok((records + [last.decoded.value], unreadable))
        else if NamesOrder(last.raw) then Ok((records, unreadable + [last.raw]))
        else Err
  }

  /** The constructor's map: a later entry of one order replaces an earlier one in its place. */
  function Collect(records: seq<Record>): Orders
    requires forall i :: 0 <= i < |records| ==> NamesOrder(Obj(records[i]))
  {
    if records == [] then [] else
      var last := records[|records| - 1];
      Set(Collect(records[..|records| - 1]), OrderOf(Obj(last)), last)
  }

  function Held(unreadable: seq<Value>): set<string>
    requires forall i :: 0 <= i < |unreadable| ==> NamesOrder(unreadable[i])
  {
    set i | 0 <= i < |unreadable| :: OrderOf(unreadable[i])
  }

  function Load(doc: Value): Result<Loaded> {
    if !doc.Obj? || Fills !in doc.fields || !doc.fields[Fills].Arr? then Err else
      var items := Decoded(doc.fields[Fills].items);
      AllNamed(doc.fields[Fills].items);
      match Scan(items)
      case Err => Err
      case Ok((records, unreadable)) => Ok(Loaded(Collect(records), unreadable, Held(unreadable)))
  }

  predicate Writable(orders: Orders) {
    forall i :: 0 <= i < |orders| ==> Shaped(orders[i].1)
  }

  function Written(orders: Orders): seq<Value>
    requires Writable(orders)
  {
    seq(|orders|, i requires 0 <= i < |orders| => Tag(Obj(Persistable(orders[i].1))))
  }

  function Save(orders: Orders, unreadable: seq<Value>): Value
    requires Writable(orders)
  {
    Obj(map[Fills := Arr(Written(orders) + seq(|unreadable|, i requires 0 <= i < |unreadable| => Tag(unreadable[i])))])
  }

  lemma SaveIsJson(orders: Orders, unreadable: seq<Value>)
    requires Writable(orders)
    ensures IsJson(Save(orders, unreadable))
  {
    var items := Save(orders, unreadable).fields[Fills].items;
    forall i | 0 <= i < |items| ensures IsJson(items[i]) {
      if i < |orders| {
        TagIsJson(Obj(Persistable(orders[i].1)));
      } else {
        TagIsJson(unreadable[i - |orders|]);
      }
    }
  }

  // The round trip of the file.

  /** Entries of their types, each under its own order id, with no negative bigint. */
  ghost predicate Sound(orders: Orders) {
    && Distinct(orders)
    && forall i :: 0 <= i < |orders| ==> SoundEntry(orders[i].0, orders[i].1)
  }

  predicate SoundEntry(key: string, e: Record) {
    Storable(e) && NonNegative(e[Prepared].fields, BIGINT_PATHS) && key == OrderOf(Obj(e))
  }

  predicate Undecodable(unreadable: seq<Value>) {
    forall i :: 0 <= i < |unreadable| ==> IsJson(unreadable[i]) && Decode(unreadable[i]).Err? && NamesOrder(unreadable[i])
  }

  ghost function Persisted(orders: Orders): Orders
    requires Writable(orders)
  {
    seq(|orders|, i requires 0 <= i < |orders| => (orders[i].0, Persistable(orders[i].1)))
  }

  ghost function Values(orders: Orders): seq<Record> {
    seq(|orders|, i requires 0 <= i < |orders| => orders[i].1)
  }

  lemma SoundShaped(key: string, e: Record)
    requires SoundEntry(key, e)
    ensures Shaped(e) && Decode(Tag(Obj(Persistable(e)))) == Ok(Persistable(e))
    ensures NamesOrder(Obj(Persistable(e))) && OrderOf(Obj(Persistable(e))) == key
  {
    EntryRoundTrip(e);
    PickKeepsIds(e[Prepared].fields);
  }

  lemma SoundWritable(orders: Orders)
    requires Sound(orders)
    ensures Writable(orders)
  {
    forall i | 0 <= i < |orders| ensures Shaped(orders[i].1) {
      SoundShaped(orders[i].0, orders[i].1);
    }
  }

  lemma {:induction false} ScanDecoded(items: seq<Item>, records: seq<Record>)
    requires |items| == |records| && forall i :: 0 <= i < |items| ==> Named(items[i]) && items[i].decoded == Ok(records[i])
    ensures Scan(items) == Ok((records, []))
  {
    if items != [] {
      var n := |items| - 1;
      ScanDecoded(items[..n], records[..n]);
      assert records == records[..n] + [records[n]];
    }
  }

  predicate Unread(items: seq<Item>) {
    forall i :: 0 <= i < |items| ==> items[i].decoded.Err? && NamesOrder(items[i].raw)
  }

  function Raw(items: seq<Item>): seq<Value> {
    seq(|items|, i requires 0 <= i < |items| => items[i].raw)
  }

  lemma {:induction false} ScanUnreadable(items: seq<Item>, records: seq<Record>, unread: seq<Item>)
    requires (forall i :: 0 <= i < |items| ==> Named(items[i])) && Scan(items) == Ok((records, [])) && Unread(unread)
    ensures forall i :: 0 <= i < |items + unread| ==> Named((items + unread)[i])
    ensures Scan(items + unread) == Ok((records, Raw(unread)))
  {
    if unread == [] {
      assert items + unread == items && Raw(unread) == [];
    } else {
      var front := unread[..|unread| - 1];
      ScanUnreadable(items, records, front);
      assert (items + unread)[..|items + unread| - 1] == items + front;
      assert Raw(unread) == Raw(front) + [unread[|unread| - 1].raw];
    }
  }

  lemma {:induction false} CollectValues(orders: Orders)
    requires Distinct(orders) && forall i :: 0 <= i < |orders| ==> NamesOrder(Obj(orders[i].1)) && OrderOf(Obj(orders[i].1)) == orders[i].0
    ensures Collect(Values(orders)) == orders
  {
    if orders != [] {
      var front := orders[..|orders| - 1];
      CollectValues(front);
      assert Values(orders)[..|orders| - 1] == Values(front);
      assert orders == front + [orders[|orders| - 1]];
    }
  }

  lemma TagUndecodable(unreadable: seq<Value>)
    requires Undecodable(unreadable)
    ensures seq(|unreadable|, i requires 0 <= i < |unreadable| => Tag(unreadable[i])) == unreadable
  {
    forall i | 0 <= i < |unreadable| ensures Tag(unreadable[i]) == unreadable[i] {
      TagJson(unreadable[i]);
    }
  }

  lemma WrittenDecodes(orders: Orders)
    requires Sound(orders) && Writable(orders)
    ensures |Decoded(Written(orders))| == |Values(Persisted(orders))| == |orders|
    ensures forall i :: 0 <= i < |orders| ==>
              Named(Decoded(Written(orders))[i]) && Decoded(Written(orders))[i].decoded == Ok(Values(Persisted(orders))[i])
  {
    AllNamed(Written(orders));
    forall i | 0 <= i < |orders| ensures Decoded(Written(orders))[i].decoded == Ok(Values(Persisted(orders))[i]) {
      SoundShaped(orders[i].0, orders[i].1);
    }
  }

  lemma UndecodableUnread(unreadable: seq<Value>)
    requires Undecodable(unreadable)
    ensures Unread(Decoded(unreadable)) && Raw(Decoded(unreadable)) == unreadable
  {
    assert Raw(Decoded(unreadable)) == unreadable;
  }

  lemma DecodedConcat(a: seq<Value>, b: seq<Value>)
    ensures Decoded(a + b) == Decoded(a) + Decoded(b)
  {
  }

  lemma WrittenScans(orders: Orders, unreadable: seq<Value>)
    requires Sound(orders) && Writable(orders) && Undecodable(unreadable)
    ensures forall i :: 0 <= i < |Written(orders) + unreadable| ==> Named(Decoded(Written(orders) + unreadable)[i])
    ensures Scan(Decoded(Written(orders) + unreadable)) == Ok((Values(Persisted(orders)), unreadable))
  {
    var items, unread := Decoded(Written(orders)), Decoded(unreadable);
    WrittenDecodes(orders);
    ScanDecoded(items, Values(Persisted(orders)));
    UndecodableUnread(unreadable);
    ScanUnreadable(items, Values(Persisted(orders)), unread);
    DecodedConcat(Written(orders), unreadable);
  }

  lemma PersistedCollects(orders: Orders)
    requires Sound(orders) && Writable(orders)
    ensures forall i :: 0 <= i < |orders| ==> NamesOrder(Obj(Values(Persisted(orders))[i]))
    ensures Collect(Values(Persisted(orders))) == Persisted(orders)
  {
    var persisted := Persisted(orders);
    forall i | 0 <= i < |orders| ensures NamesOrder(Obj(persisted[i].1)) && OrderOf(Obj(persisted[i].1)) == persisted[i].0 {
      SoundShaped(orders[i].0, orders[i].1);
    }
    CollectValues(persisted);
  }

  /**
   What was written loads back: the same orders in the same order with the modelled fields,
   the same undecodable entries verbatim, and the same orders held.
   */
  lemma FileRoundTrip(orders: Orders, unreadable: seq<Value>)
    requires Sound(orders) && Undecodable(unreadable)
    ensures Writable(orders)
    ensures Load(Save(orders, unreadable)) == Ok(Loaded(Persisted(orders), unreadable, Held(unreadable)))
  {
    SoundWritable(orders);
    TagUndecodable(unreadable);
    WrittenScans(orders, unreadable);
    PersistedCollects(orders);
  }

  lemma SoundPersisted(orders: Orders)
    requires Sound(orders) && Writable(orders)
    ensures Sound(Persisted(orders)) && Writable(Persisted(orders)) && Persisted(Persisted(orders)) == Persisted(orders)
  {
    forall i | 0 <= i < |orders|
      ensures SoundEntry(orders[i].0, Persistable(orders[i].1)) && Shaped(Persistable(orders[i].1))
      ensures Persistable(Persistable(orders[i].1)) == Persistable(orders[i].1)
    {
      PersistableSound(orders[i].0, orders[i].1);
    }
  }

  lemma PersistableSound(key: string, e: Record)
    requires SoundEntry(key, e) && Shaped(e)
    ensures Shaped(Persistable(e)) && Persistable(Persistable(e)) == Persistable(e)
    ensures SoundEntry(key, Persistable(e))
  {
    PersistableOnce(e);
    SoundShaped(key, e);
    PersistableStorable(e);
  }

  // Whatever loads can be written.

  predicate SoundItem(item: Item) {
    match item.decoded
    case Ok(e) => NamesOrder(Obj(e)) && SoundEntry(OrderOf(Obj(e)), e)
    case Err => IsJson(item.raw) && Decode(item.raw).Err?
  }

  lemma {:induction false} ScanSound(items: seq<Item>)
    requires (forall i :: 0 <= i < |items| ==> Named(items[i]) && SoundItem(items[i])) && Scan(items).Ok?
    ensures var (records, unreadable) := Scan(items).value;
            && Undecodable(unreadable)
            && forall i :: 0 <= i < |records| ==> SoundEntry(OrderOf(Obj(records[i])), records[i])
  {
    if items != [] {
      var n := |items| - 1;
      ScanSound(items[..n]);
      assert SoundItem(items[n]);
    }
  }

  lemma DecodedSound(v: Value)
    requires IsJson(v)
    ensures SoundItem(Item(v, Decode(v)))
  {
    if Decode(v).Ok? {
      DecodedStorable(v);
      DecodedNames(v);
    }
  }

  lemma {:induction false} CollectSound(records: seq<Record>)
    requires forall i :: 0 <= i < |records| ==>
                           NamesOrder(Obj(records[i])) && SoundEntry(OrderOf(Obj(records[i])), records[i])
    ensures Sound(Collect(records))
  {
    if records != [] {
      var n := |records| - 1;
      CollectSound(records[..n]);
      SetIsUpdate(Collect(records[..n]), OrderOf(Obj(records[n])), records[n]);
    }
  }

  /**
   A file that loads, whoever wrote it, survives any number of rewrites: written back and
   loaded again it gives the same orders, the same undecodable entries and the same holds.
   */
  lemma LoadedSurvives(doc: Value)
    requires IsJson(doc) && Load(doc).Ok?
    ensures var l := Load(doc).value;
            && Sound(l.orders) && Writable(l.orders) && Undecodable(l.unreadable) && l.held == Held(l.unreadable)
            && Load(Save(l.orders, l.unreadable)) == Ok(Loaded(Persisted(l.orders), l.unreadable, l.held))
  {
    assert IsJson(doc.fields[Fills]);
    var items := doc.fields[Fills].items;
    AllNamed(items);
    forall i | 0 <= i < |items| ensures SoundItem(Decoded(items)[i]) {
      DecodedSound(items[i]);
    }
    ScanSound(Decoded(items));
    CollectSound(Scan(Decoded(items)).value.0);
    var l := Load(doc).value;
    FileRoundTrip(l.orders, l.unreadable);
  }

  // What a load makes of a file, entry by entry.

  /** The i-th entry decodes, and to this order. */
  predicate IsEntry(items: seq<Item>, i: int, order: string) {
    && 0 <= i < |items| && items[i].decoded.Ok? && NamesOrder(Obj(items[i].decoded.value))
    && OrderOf(Obj(items[i].decoded.value)) == order
  }

  predicate IsLastEntry(items: seq<Item>, i: int, order: string) {
    IsEntry(items, i, order) && forall j :: i < j < |items| ==> !IsEntry(items, j, order)
  }

  ghost predicate Sorted(items: seq<Item>, records: seq<Record>, unreadable: seq<Value>)
    requires forall k :: 0 <= k < |records| ==> NamesOrder(Obj(records[k]))
  {
    && (forall v :: v in unreadable <==> exists i :: 0 <= i < |items| && items[i].decoded.Err? && items[i].raw == v)
    && Distinct(Collect(records)) && Latest(items, ToMap(Collect(records)))
  }

  /** Each order some entry decodes to, as its last such entry has it. */
  ghost predicate Latest(items: seq<Item>, orders: map<string, Record>) {
    && (forall order :: order in orders ==> exists i :: IsEntry(items, i, order))
    && (forall i, order :: IsLastEntry(items, i, order) ==> order in orders && orders[order] == items[i].decoded.value)
  }

  lemma LatestSnoc(front: seq<Item>, last: Item, orders: map<string, Record>, name: string)
    requires Latest(front, orders) && last.decoded.Ok? && NamesOrder(Obj(last.decoded.value))
    requires name == OrderOf(Obj(last.decoded.value))
    ensures Latest(front + [last], orders[name := last.decoded.value])
  {
    var items, more := front + [last], orders[name := last.decoded.value];
    assert items[|front|] == last && IsEntry(items, |front|, name);
    forall i, order | IsLastEntry(items, i, order) ensures order in more && more[order] == items[i].decoded.value {
      if i < |front| {
        assert !IsEntry(items, |front|, order);
        FrontEntries(front, last, i, order);
      }
    }
    forall order | order in more ensures exists i :: IsEntry(items, i, order) {
      if order != name {
        var i :| IsEntry(front, i, order);
        FrontEntries(front, last, i, order);
      }
    }
  }

  lemma SortedRecord(front: seq<Item>, last: Item, records: seq<Record>, unreadable: seq<Value>)
    requires last.decoded.Ok? && NamesOrder(Obj(last.decoded.value))
    requires forall k :: 0 <= k < |records| ==> NamesOrder(Obj(records[k]))
    requires Sorted(front, records, unreadable)
    ensures var more := records + [last.decoded.value];
            (forall k :: 0 <= k < |more| ==> NamesOrder(Obj(more[k]))) && Sorted(front + [last], more, unreadable)
  {
    var more, name := records + [last.decoded.value], OrderOf(Obj(last.decoded.value));
    assert more[..|records|] == records;
    SetIsUpdate(Collect(records), name, last.decoded.value);
    LatestSnoc(front, last, ToMap(Collect(records)), name);
    SameUnread(front, last, unreadable);
  }

  lemma FrontEntries(front: seq<Item>, last: Item, i: int, order: string)
    requires 0 <= i < |front|
    ensures IsEntry(front + [last], i, order) <==> IsEntry(front, i, order)
    ensures IsLastEntry(front + [last], i, order) ==> IsLastEntry(front, i, order)
  {
    var items := front + [last];
    if IsLastEntry(items, i, order) {
      forall j | i < j < |front| ensures !IsEntry(front, j, order) {
        assert !IsEntry(items, j, order);
      }
    }
  }

  lemma SameUnread(front: seq<Item>, last: Item, unreadable: seq<Value>)
    requires last.decoded.Ok?
    requires forall v :: v in unreadable <==> exists i :: 0 <= i < |front| && front[i].decoded.Err? && front[i].raw == v
    ensures var items := front + [last];
            forall v :: v in unreadable <==> exists i :: 0 <= i < |items| && items[i].decoded.Err? && items[i].raw == v
  {
    var items := front + [last];
    forall v | v in unreadable ensures exists i :: 0 <= i < |items| && items[i].decoded.Err? && items[i].raw == v {
      var i :| 0 <= i < |front| && front[i].decoded.Err? && front[i].raw == v;
      assert items[i] == front[i];
    }
  }

  lemma MoreUnread(front: seq<Item>, last: Item, unreadable: seq<Value>)
    requires last.decoded.Err?
    requires forall v :: v in unreadable <==> exists i :: 0 <= i < |front| && front[i].decoded.Err? && front[i].raw == v
    ensures var items := front + [last];
            forall v :: v in unreadable + [last.raw] <==> exists i :: 0 <= i < |items| && items[i].decoded.Err? && items[i].raw == v
  {
    var items := front + [last];
    assert items[|front|] == last;
    forall v | v in unreadable ensures exists i :: 0 <= i < |items| && items[i].decoded.Err? && items[i].raw == v {
      var i :| 0 <= i < |front| && front[i].decoded.Err? && front[i].raw == v;
      assert items[i] == front[i];
    }
  }

  lemma SortedUnread(front: seq<Item>, last: Item, records: seq<Record>, unreadable: seq<Value>)
    requires last.decoded.Err?
    requires forall k :: 0 <= k < |records| ==> NamesOrder(Obj(records[k]))
    requires Sorted(front, records, unreadable)
    ensures Sorted(front + [last], records, unreadable + [last.raw])
  {
    LatestSame(front, last, ToMap(Collect(records)));
    MoreUnread(front, last, unreadable);
  }

  lemma LatestSame(front: seq<Item>, last: Item, orders: map<string, Record>)
    requires Latest(front, orders) && last.decoded.Err?
    ensures Latest(front + [last], orders)
  {
    var items := front + [last];
    assert items[|front|] == last;
    forall i, order | IsLastEntry(items, i, order) ensures order in orders && orders[order] == items[i].decoded.value {
      FrontEntries(front, last, i, order);
    }
    forall order | order in orders ensures exists i :: IsEntry(items, i, order) {
      var i :| IsEntry(front, i, order);
      FrontEntries(front, last, i, order);
    }
  }

  lemma {:induction false} ScanSorts(items: seq<Item>)
    requires forall i :: 0 <= i < |items| ==> Named(items[i])
    ensures Scan(items).Ok? <==> forall i :: 0 <= i < |items| ==> items[i].decoded.Ok? || NamesOrder(items[i].raw)
    ensures Scan(items).Ok? ==> Sorted(items, Scan(items).value.0, Scan(items).value.1)
  {
    if items != [] {
      var front, last := items[..|items| - 1], items[|items| - 1];
      ScanSorts(front);
      assert items == front + [last];
      if Scan(front).Ok? {
        var (records, unreadable) := Scan(front).value;
        if last.decoded.Ok? {
          SortedRecord(front, last, records, unreadable);
        } else if NamesOrder(last.raw) {
          SortedUnread(front, last, records, unreadable);
        }
      }
    }
  }

  /** The i-th entry decodes, to this order. */
  predicate IsOf(items: seq<Value>, i: int, order: string) {
    && 0 <= i < |items| && Decode(items[i]).Ok? && NamesOrder(Obj(Decode(items[i]).value))
    && OrderOf(Obj(Decode(items[i]).value)) == order
  }

  predicate IsLast(items: seq<Value>, i: int, order: string) {
    IsOf(items, i, order) && forall j :: i < j < |items| ==> !IsOf(items, j, order)
  }

  lemma SameEntry(items: seq<Value>, i: int, order: string)
    ensures IsOf(items, i, order) <==> IsEntry(Decoded(items), i, order)
    ensures IsLast(items, i, order) <==> IsLastEntry(Decoded(items), i, order)
  {
    forall j ensures IsOf(items, j, order) <==> IsEntry(Decoded(items), j, order) {
      if 0 <= j < |items| {
        assert Decoded(items)[j] == Item(items[j], Decode(items[j]));
      }
    }
  }

  /** What was sorted, said of the values themselves. */
  ghost predicate LoadedFrom(items: seq<Value>, l: Loaded) {
    && Distinct(l.orders)
    && (forall v :: v in l.unreadable <==> exists i :: 0 <= i < |items| && Decode(items[i]).Err? && items[i] == v)
    && (forall order :: order in l.held <==>
          exists i :: 0 <= i < |items| && Decode(items[i]).Err? && NamesOrder(items[i]) && OrderOf(items[i]) == order)
    && (forall order :: order in ToMap(l.orders) <==> exists i :: IsOf(items, i, order))
    && (forall i, order :: IsLast(items, i, order) && order in ToMap(l.orders) ==> ToMap(l.orders)[order] == Decode(items[i]).value)
  }

  lemma {:induction false} LastExists(items: seq<Value>, i: int, order: string) returns (j: int)
    requires IsOf(items, i, order)
    ensures IsLast(items, j, order)
    decreases |items| - i
  {
    if k :| i < k < |items| && IsOf(items, k, order) {
      j := LastExists(items, k, order);
    } else {
      j := i;
    }
  }

  lemma UnreadableFrom(items: seq<Value>, unreadable: seq<Value>)
    requires var d := Decoded(items);
             forall v :: v in unreadable <==> exists i :: 0 <= i < |d| && d[i].decoded.Err? && d[i].raw == v
    ensures forall v :: v in unreadable <==> exists i :: 0 <= i < |items| && Decode(items[i]).Err? && items[i] == v
  {
    var d := Decoded(items);
    assert forall i :: 0 <= i < |items| ==> d[i] == Item(items[i], Decode(items[i]));
    forall v | v in unreadable ensures exists i :: 0 <= i < |items| && Decode(items[i]).Err? && items[i] == v {
      var i :| 0 <= i < |d| && d[i].decoded.Err? && d[i].raw == v;
    }
    forall i | 0 <= i < |items| && Decode(items[i]).Err? ensures items[i] in unreadable {
      assert d[i].decoded.Err? && d[i].raw == items[i];
    }
  }

  lemma HeldFrom(items: seq<Value>, unreadable: seq<Value>)
    requires forall v :: v in unreadable <==> exists i :: 0 <= i < |items| && Decode(items[i]).Err? && items[i] == v
    requires forall i :: 0 <= i < |unreadable| ==> NamesOrder(unreadable[i])
    ensures forall order :: order in Held(unreadable) <==>
              exists i :: 0 <= i < |items| && Decode(items[i]).Err? && NamesOrder(items[i]) && OrderOf(items[i]) == order
  {
    forall order | order in Held(unreadable)
      ensures exists i :: 0 <= i < |items| && Decode(items[i]).Err? && NamesOrder(items[i]) && OrderOf(items[i]) == order
    {
      var k :| 0 <= k < |unreadable| && OrderOf(unreadable[k]) == order;
      assert unreadable[k] in unreadable;
    }
    forall i | 0 <= i < |items| && Decode(items[i]).Err? && NamesOrder(items[i]) ensures OrderOf(items[i]) in Held(unreadable) {
      assert items[i] in unreadable;
      var k :| 0 <= k < |unreadable| && unreadable[k] == items[i];
    }
  }

  lemma OrdersFrom(items: seq<Value>, records: seq<Record>, unreadable: seq<Value>)
    requires forall k :: 0 <= k < |records| ==> NamesOrder(Obj(records[k]))
    requires Sorted(Decoded(items), records, unreadable)
    ensures var orders := ToMap(Collect(records));
            && (forall order :: order in orders <==> exists i :: IsOf(items, i, order))
            && (forall i, order :: IsLast(items, i, order) && order in orders ==> orders[order] == Decode(items[i]).value)
  {
    var orders := ToMap(Collect(records));
    forall i, order | IsLast(items, i, order) ensures order in orders && orders[order] == Decode(items[i]).value {
      SameEntry(items, i, order);
    }
    forall order | order in orders ensures exists i :: IsOf(items, i, order) {
      var i :| IsEntry(Decoded(items), i, order);
      SameEntry(items, i, order);
    }
    forall i, order | IsOf(items, i, order) ensures order in orders {
      var j := LastExists(items, i, order);
    }
  }

  predicate FillsList(doc: Value) {
    doc.Obj? && Fills in doc.fields && doc.fields[Fills].Arr?
  }

  /**
   A document loads exactly when it has its list of fills and every entry of it decodes or at least names
   its order. Then the orders are those of the entries that decode, each as its last entry has it, and the
   orders held are those named by entries that do not, which are kept.
   */
  lemma LoadsExactly(doc: Value)
    ensures Load(doc).Ok? <==>
            FillsList(doc) && forall i :: 0 <= i < |doc.fields[Fills].items| ==>
                                            Decode(doc.fields[Fills].items[i]).Ok? || NamesOrder(doc.fields[Fills].items[i])
    ensures Load(doc).Ok? ==> LoadedFrom(doc.fields[Fills].items, Load(doc).value)
  {
    if FillsList(doc) {
      var items := doc.fields[Fills].items;
      AllNamed(items);
      ScansExactly(items);
      if Load(doc).Ok? {
        LoadedBy(items, Scan(Decoded(items)).value.0, Scan(Decoded(items)).value.1);
      }
    }
  }

  lemma LoadedBy(items: seq<Value>, records: seq<Record>, unreadable: seq<Value>)
    requires forall k :: 0 <= k < |records| ==> NamesOrder(Obj(records[k]))
    requires forall k :: 0 <= k < |unreadable| ==> NamesOrder(unreadable[k])
    requires Sorted(Decoded(items), records, unreadable)
    ensures LoadedFrom(items, Loaded(Collect(records), unreadable, Held(unreadable)))
  {
    UnreadableFrom(items, unreadable);
    HeldFrom(items, unreadable);
    OrdersFrom(items, records, unreadable);
  }

  lemma ScansExactly(items: seq<Value>)
    requires forall k :: 0 <= k < |items| ==> Named(Decoded(items)[k])
    ensures Scan(Decoded(items)).Ok? <==> forall i :: 0 <= i < |items| ==> Decode(items[i]).Ok? || NamesOrder(items[i])
    ensures Scan(Decoded(items)).Ok? ==> Sorted(Decoded(items), Scan(Decoded(items)).value.0, Scan(Decoded(items)).value.1)
  {
    var d := Decoded(items);
    ScanSorts(d);
    assert forall i :: 0 <= i < |items| ==> d[i] == Item(items[i], Decode(items[i]));
  }
}
