/**
 What SOLVER_STATE_FILE holds, as JSON values: entries written with their bigints tagged,
 decoded one by one on load, undecodable ones kept verbatim with their order ids held.
 */
module StateFormat {
  import opened Numerals
  import opened Wrappers

  /** The property names the file mentions; a venue may add any other. */
  datatype Key =
    | AcceptBy | Amount | Announcement | AuctionId | BidOutput | Blinding | BlockHash | BlockNumber | BondDomain
    | ChainId | ClosesAt | Deadline | Depositor | DestCommitment | DestinationChainId | DollarBigint | Escrow
    | ExclusiveWindowMs | FillAuth | FillAuthDomain | FillAuthSignature | FillAuthSigner | FillDeadline | FillId
    | Filler | Fills | FromAmount | FromChainId | FromToken | IntentId | Lock | MinOutput | Opening | OpensAt
    | OrderId | OriginChainId | Output | OutputAmount | Payee | Phase | Prepared | Recipient
    | RecipientCommitment | RefundableAt | SettlementPreference | SwapKind | Terms | To | ToAmount | ToChainId
    | ToToken | Token | Verifier | VerifyingContract | Other(name: string)

  type Record = map<Key, Value>

  /** A JavaScript value; JSON has every kind but `Big`. */
  datatype Value =
    | Null
    | Bool(b: bool)
    | Num(x: real)
    | Big(n: int)
    | Str(s: string)
    | Arr(items: seq<Value>)
    | Obj(fields: map<Key, Value>)

  predicate IsJson(v: Value) {
    match v
    case Big(_) => false
    case Arr(items) => forall i :: 0 <= i < |items| ==> IsJson(items[i])
    case Obj(fields) => forall k :: k in fields ==> IsJson(fields[k])
    case _ => true
  }

  // Writing.

  /** The replacer: each bigint becomes `{ "$bigint": "<decimal>" }`. */
  function Tag(v: Value): Value {
    match v
    case Big(n) => Obj(map[DollarBigint := Str(PrintSigned(n, 10))])
    case Arr(items) => Arr(seq(|items|, i requires 0 <= i < |items| => Tag(items[i])))
    case Obj(fields) => Obj(map k | k in fields :: Tag(fields[k]))
    case Null => v
    case Bool(_) => v
    case Num(_) => v
    case Str(_) => v
  }

  lemma {:induction false} TagJson(v: Value)
    requires IsJson(v)
    ensures Tag(v) == v
  {
    match v
    case Arr(items) =>
      forall i | 0 <= i < |items| ensures Tag(items[i]) == items[i] { TagJson(items[i]); }
      assert Tag(v).items == items;
    case Obj(fields) =>
      forall k | k in fields ensures Tag(fields[k]) == fields[k] { TagJson(fields[k]); }
      assert Tag(v).fields == fields;
    case Null =>
    case Bool(_) =>
    case Num(_) =>
    case Str(_) =>
  }

  lemma {:induction false} TagIsJson(v: Value)
    ensures IsJson(Tag(v))
  {
    match v
    case Arr(items) =>
      forall i | 0 <= i < |items| ensures IsJson(Tag(items[i])) { TagIsJson(items[i]); }
    case Obj(fields) =>
      forall k | k in fields ensures IsJson(Tag(fields[k])) { TagIsJson(fields[k]); }
    case Big(_) =>
    case Null =>
    case Bool(_) =>
    case Num(_) =>
    case Str(_) =>
  }

  const ANNOUNCEMENT_KEYS: set<Key> :=
    {IntentId, AuctionId, OrderId, FromChainId, ToChainId, FromToken, ToToken, SwapKind, FromAmount, OutputAmount,
     SettlementPreference, MinOutput, OpensAt, ClosesAt, ExclusiveWindowMs}

  const PREPARED_KEYS: set<Key> :=
    {AuctionId, OrderId, FillId, Opening, Terms, FillAuth, FillAuthSignature, FillAuthDomain, Payee, AcceptBy,
     OriginChainId, DestinationChainId, Lock, FillAuthSigner, BondDomain, BidOutput}

  /** The fields kept of a nested part of PreparedFill; none for a plain field. */
  function LeafKeys(head: Key): set<Key> {
    match head
    case Opening => {Recipient, ToToken, ToAmount, Blinding, IntentId}
    case Terms => {Depositor, FromChainId, FromToken, FromAmount, ToChainId, FillDeadline, Escrow, DestCommitment}
    case FillAuth => {FillId, Filler, To, Token, Amount, Deadline}
    case FillAuthDomain => {ChainId, VerifyingContract}
    case Lock => {OrderId, Depositor, Token, Amount, ToChainId, RefundableAt, Verifier, BlockNumber, BlockHash}
    case BondDomain => {ChainId, VerifyingContract}
    case _ => {}
  }

  predicate IsPart(head: Key) {
    head in {Opening, Terms, FillAuth, FillAuthDomain, Lock, BondDomain}
  }

  function Pick(r: Record, keys: set<Key>): Record {
    map k | k in r && k in keys :: r[k]
  }

  function PickPrepared(p: Record): Record {
    map h | h in p && h in PREPARED_KEYS ::
      if IsPart(h) && p[h].Obj? then Obj(Pick(p[h].fields, LeafKeys(h))) else p[h]
  }

  predicate Shaped(e: Record) {
    && AuctionId in e && Announcement in e && Output in e && Prepared in e && Phase in e
    && (e[Announcement].Obj? || e[Announcement].Arr?) && e[Prepared].Obj?
  }

  function Persistable(e: Record): Record
    requires Shaped(e)
  {
    map[AuctionId := e[AuctionId],
        Announcement := Obj(if e[Announcement].Obj? then Pick(e[Announcement].fields, ANNOUNCEMENT_KEYS) else map[]),
        Output := e[Output],
        Prepared := Obj(PickPrepared(e[Prepared].fields)),
        Phase := e[Phase]]
  }

  // Reading.

  datatype Path = Path(head: Key, leaf: Result<Key>)

  const BIGINT_PATHS: seq<Path> :=
    [Path(OriginChainId, Err), Path(DestinationChainId, Err), Path(BidOutput, Err), Path(AcceptBy, Err),
     Path(FillAuthDomain, Ok(ChainId)), Path(BondDomain, Ok(ChainId)),
     Path(Lock, Ok(Amount)), Path(Lock, Ok(ToChainId)), Path(Lock, Ok(RefundableAt)),
     Path(Terms, Ok(FromChainId)), Path(Terms, Ok(FromAmount)), Path(Terms, Ok(ToChainId)),
     Path(Terms, Ok(FillDeadline)), Path(Opening, Ok(ToAmount)), Path(FillAuth, Ok(Amount)), Path(FillAuth, Ok(Deadline))]

  const REQUIRED_BIGINTS := 9

  const MAX_SAFE_INTEGER := 9007199254740991.0

  predicate IsDecimal(s: string) {
    IsNumeral(s, 10)
  }

  predicate IsTagged(v: Value) {
    v.Obj? && v.fields.Keys == {DollarBigint} && v.fields[DollarBigint].Str? && IsDecimal(v.fields[DollarBigint].s)
  }

  predicate IsPlainUint(v: Value) {
    || (v.Str? && IsDecimal(v.s))
    || (v.Num? && v.x.Floor as real == v.x && 0.0 <= v.x <= MAX_SAFE_INTEGER)
  }

  /** One value at a bigint path: revived, left as a plain uint where that will do, or refused. */
  function Revive(v: Value, required: bool): Result<Value> {
    if IsTagged(v) then Ok(Big(Parse(v.fields[DollarBigint].s, 10)))
    else if required || !IsPlainUint(v) then Err
    else Ok(v)
  }

  function ReviveKey(r: Record, key: Key, required: bool): Result<Record> {
    if key !in r then Err else
      match Revive(r[key], required)
      case Ok(v) => Ok(r[key := v])
      case Err => Err
  }

  function ReviveAt(p: Record, path: Path, required: bool): Result<Record> {
    match path.leaf
    case Err => ReviveKey(p, path.head, required)
    case Ok(leaf) =>
      if path.head !in p || !p[path.head].Obj? then Err else
        match ReviveKey(p[path.head].fields, leaf, required)
        case Ok(part) => Ok(p[path.head := Obj(part)])
        case Err => Err
  }

  function ReviveFrom(p: Record, paths: seq<Path>, i: nat): Result<Record>
    requires i <= |paths|
    decreases |paths| - i
  {
    if i == |paths| then Ok(p) else
      match ReviveAt(p, paths[i], i < REQUIRED_BIGINTS)
      case Ok(q) => ReviveFrom(q, paths, i + 1)
      case Err => Err
  }

  predicate HasStr(r: Record, key: Key) {
    key in r && r[key].Str?
  }

  const PHASES: set<Value> := {Str("accepting"), Str("accepted"), Str("filled")}

  /** What `decodeEntry` checks before it revives the bigints. */
  predicate Headed(v: Value) {
    && v.Obj? && HasStr(v.fields, AuctionId) && HasStr(v.fields, Output)
    && Phase in v.fields && v.fields[Phase] in PHASES
    && Announcement in v.fields && (v.fields[Announcement].Obj? || v.fields[Announcement].Arr?)
    && Prepared in v.fields && v.fields[Prepared].Obj?
    && HasStr(v.fields[Prepared].fields, OrderId) && HasStr(v.fields[Prepared].fields, FillId)
  }

  function WithoutCommitment(a: Value): Value {
    if a.Obj? then Obj(a.fields - {RecipientCommitment}) else a
  }

  function Decode(v: Value): Result<Record> {
    DecodeAt(v, BIGINT_PATHS)
  }

  function DecodeAt(v: Value, paths: seq<Path>): Result<Record> {
    if !Headed(v) then Err else
      match ReviveFrom(v.fields[Prepared].fields, paths, 0)
      case Ok(p) => Ok(v.fields[Prepared := Obj(p)][Announcement := WithoutCommitment(v.fields[Announcement])])
      case Err => Err
  }

  // The round trip of one entry.

  predicate HasPath(p: Record, path: Path) {
    match path.leaf
    case Err => path.head in p
    case Ok(leaf) => path.head in p && p[path.head].Obj? && leaf in p[path.head].fields
  }

  function ValueAt(p: Record, path: Path): Value
    requires HasPath(p, path)
  {
    match path.leaf
    case Err => p[path.head]
    case Ok(leaf) => p[path.head].fields[leaf]
  }

  /** The types PreparedFill gives its bigint fields; nine are always bigints, the rest may be plain uints. */
  predicate BigintsTyped(p: Record, paths: seq<Path>) {
    forall i :: 0 <= i < |paths| ==>
      && HasPath(p, paths[i])
      && (ValueAt(p, paths[i]).Big? || (i >= REQUIRED_BIGINTS && IsPlainUint(ValueAt(p, paths[i]))))
  }

  predicate Negative(p: Record, path: Path) {
    && HasPath(p, path)
    && var v := ValueAt(p, path);
       v.Big? && v.n < 0
  }

  predicate NonNegative(p: Record, paths: seq<Path>) {
    forall i :: 0 <= i < |paths| ==> !Negative(p, paths[i])
  }

  predicate LeafPlain(paths: seq<Path>, head: Key, part: Record) {
    forall k :: k in part && Path(head, Ok(k)) !in paths ==> IsJson(part[k])
  }

  /** Away from the bigint paths there is only JSON. */
  predicate JsonElsewhere(p: Record, paths: seq<Path>) {
    forall h :: h in p && Path(h, Err) !in paths ==>
                  if p[h].Obj? then LeafPlain(paths, h, p[h].fields) else IsJson(p[h])
  }

  /** A value on its way back from disk once the paths in `done` are revived. */
  function TagAt(done: seq<Path>, head: Key, v: Value): Value {
    if Path(head, Err) in done then v
    else if v.Obj? then Obj(TagPart(done, head, v.fields))
    else Tag(v)
  }

  function TagPart(done: seq<Path>, head: Key, part: Record): Record {
    map k | k in part :: if Path(head, Ok(k)) in done then part[k] else Tag(part[k])
  }

  function TagFrom(done: seq<Path>, p: Record): Record {
    map h | h in p :: TagAt(done, h, p[h])
  }

  lemma ReviveTagged(v: Value, required: bool)
    requires v.Big? || (!required && IsPlainUint(v))
    ensures Revive(Tag(v), required) == if v.Big? && v.n < 0 then Err else Ok(v)
  {
    if v.Big? {
      var text := Tag(v).fields[DollarBigint].s;
      if v.n < 0 {
        assert text[0] == '-';
      } else {
        ParsePrint(v.n, 10);
      }
    }
  }

  predicate Fresh(done: seq<Path>, path: Path) {
    path !in done && (path.leaf.Ok? ==> Path(path.head, Err) !in done)
  }

  lemma InSnoc(done: seq<Path>, path: Path, other: Path)
    ensures other in done + [path] <==> other in done || other == path
  {
  }

  lemma OtherHeads(done: seq<Path>, p: Record, path: Path, h: Key)
    requires h in p && h != path.head
    ensures TagAt(done, h, p[h]) == TagAt(done + [path], h, p[h])
  {
    InSnoc(done, path, Path(h, Err));
    if p[h].Obj? {
      forall k | k in p[h].fields ensures Path(h, Ok(k)) in done + [path] <==> Path(h, Ok(k)) in done {
        InSnoc(done, path, Path(h, Ok(k)));
      }
      assert TagPart(done, h, p[h].fields) == TagPart(done + [path], h, p[h].fields);
    }
  }

  /** Reviving under one head is all that adding its path changes. */
  lemma TagsUnder(done: seq<Path>, p: Record, path: Path, v: Value)
    requires path.head in p && v == TagAt(done + [path], path.head, p[path.head])
    ensures TagFrom(done, p)[path.head := v] == TagFrom(done + [path], p)
  {
    forall h | h in p && h != path.head ensures TagAt(done, h, p[h]) == TagAt(done + [path], h, p[h]) {
      OtherHeads(done, p, path, h);
    }
  }

  lemma RevivesTop(done: seq<Path>, p: Record, head: Key, required: bool)
    requires head in p && Path(head, Err) !in done
    requires p[head].Big? || (!required && IsPlainUint(p[head]))
    ensures ReviveAt(TagFrom(done, p), Path(head, Err), required) ==
            if Negative(p, Path(head, Err)) then Err else Ok(TagFrom(done + [Path(head, Err)], p))
  {
    ReviveTagged(p[head], required);
    TagsUnder(done, p, Path(head, Err), p[head]);
  }

  lemma RevivesLeaf(done: seq<Path>, p: Record, head: Key, leaf: Key, required: bool)
    requires head in p && p[head].Obj? && leaf in p[head].fields && Fresh(done, Path(head, Ok(leaf)))
    requires var v := p[head].fields[leaf]; v.Big? || (!required && IsPlainUint(v))
    ensures ReviveAt(TagFrom(done, p), Path(head, Ok(leaf)), required) ==
            if Negative(p, Path(head, Ok(leaf))) then Err else Ok(TagFrom(done + [Path(head, Ok(leaf))], p))
  {
    var part := p[head].fields;
    var more := done + [Path(head, Ok(leaf))];
    ReviveTagged(part[leaf], required);
    assert TagPart(done, head, part)[leaf := part[leaf]] == TagPart(more, head, part);
    TagsUnder(done, p, Path(head, Ok(leaf)), Obj(TagPart(more, head, part)));
  }

  /** No path twice, and none inside another's value. */
  predicate Apart(paths: seq<Path>) {
    forall i, j :: 0 <= i < |paths| && 0 <= j < |paths| && i != j ==>
                     paths[i] != paths[j] && !(paths[i].head == paths[j].head && paths[i].leaf.Err?)
  }

  lemma Revives(p: Record, paths: seq<Path>, i: nat)
    requires i < |paths| && Apart(paths) && BigintsTyped(p, paths)
    ensures ReviveAt(TagFrom(paths[..i], p), paths[i], i < REQUIRED_BIGINTS) ==
            if Negative(p, paths[i]) then Err else Ok(TagFrom(paths[..i + 1], p))
  {
    var path := paths[i];
    assert path !in paths[..i] && (path.leaf.Ok? ==> Path(path.head, Err) !in paths[..i]);
    assert paths[..i + 1] == paths[..i] + [path];
    match path.leaf
    case Err => RevivesTop(paths[..i], p, path.head, i < REQUIRED_BIGINTS);
    case Ok(leaf) => RevivesLeaf(paths[..i], p, path.head, leaf, i < REQUIRED_BIGINTS);
  }

  /** The records on the way: every step up to `stop` succeeds, and the step at `stop` fails if there is one. */
  predicate Stages(qs: seq<Record>, paths: seq<Path>, stop: nat) {
    && stop <= |paths| && |qs| == stop + 1
    && (forall i :: 0 <= i < stop ==> ReviveAt(qs[i], paths[i], i < REQUIRED_BIGINTS) == Ok(qs[i + 1]))
    && (stop < |paths| ==> ReviveAt(qs[stop], paths[stop], stop < REQUIRED_BIGINTS) == Err)
  }

  lemma {:induction false} FollowsStages(qs: seq<Record>, paths: seq<Path>, stop: nat, i: nat)
    requires Stages(qs, paths, stop) && i <= stop
    ensures ReviveFrom(qs[i], paths, i) == if stop == |paths| then Ok(qs[stop]) else Err
    decreases stop - i
  {
    if i < stop {
      FollowsStages(qs, paths, stop, i + 1);
    }
  }

  lemma RevivesRest(p: Record, paths: seq<Path>, stop: nat)
    requires Apart(paths) && BigintsTyped(p, paths) && stop <= |paths|
    requires forall i :: 0 <= i < stop ==> !Negative(p, paths[i])
    requires stop < |paths| ==> Negative(p, paths[stop])
    ensures ReviveFrom(TagFrom([], p), paths, 0) == if stop == |paths| then Ok(TagFrom(paths, p)) else Err
  {
    var qs := seq(stop + 1, i requires 0 <= i <= stop => TagFrom(paths[..i], p));
    forall i | 0 <= i < |paths| && i <= stop
      ensures ReviveAt(qs[i], paths[i], i < REQUIRED_BIGINTS) ==
              if Negative(p, paths[i]) then Err else Ok(TagFrom(paths[..i + 1], p))
    {
      Revives(p, paths, i);
    }
    FollowsStages(qs, paths, stop, 0);
    assert paths[..|paths|] == paths;
  }

  lemma FirstNegative(p: Record, paths: seq<Path>) returns (stop: nat)
    ensures stop <= |paths| && forall i :: 0 <= i < stop ==> !Negative(p, paths[i])
    ensures stop < |paths| ==> Negative(p, paths[stop])
  {
    stop := 0;
    while stop < |paths| && !Negative(p, paths[stop])
      invariant stop <= |paths| && forall i :: 0 <= i < stop ==> !Negative(p, paths[i])
    {
      stop := stop + 1;
    }
  }

  lemma NothingRevived(p: Record)
    ensures TagFrom([], p) == Tag(Obj(p)).fields
  {
    forall h | h in p ensures TagAt([], h, p[h]) == Tag(p[h]) {
      if p[h].Obj? {
        assert TagPart([], h, p[h].fields) == Tag(p[h]).fields;
      }
    }
  }

  lemma AllRevived(p: Record, paths: seq<Path>)
    requires JsonElsewhere(p, paths)
    ensures TagFrom(paths, p) == p
  {
    forall h | h in p ensures TagAt(paths, h, p[h]) == p[h] {
      if Path(h, Err) !in paths {
        if p[h].Obj? {
          var part := p[h].fields;
          forall k | k in part && Path(h, Ok(k)) !in paths ensures Tag(part[k]) == part[k] { TagJson(part[k]); }
          assert TagPart(paths, h, part) == part;
        } else {
          TagJson(p[h]);
        }
      }
    }
  }

  /** PreparedFill's record comes back from its tagged form exactly when no bigint in it is negative. */
  lemma PreparedRoundTrip(p: Record, paths: seq<Path>)
    requires Apart(paths) && BigintsTyped(p, paths) && JsonElsewhere(p, paths)
    ensures ReviveFrom(Tag(Obj(p)).fields, paths, 0) == if NonNegative(p, paths) then Ok(p) else Err
  {
    NothingRevived(p);
    AllRevived(p, paths);
    var stop := FirstNegative(p, paths);
    RevivesRest(p, paths, stop);
  }

  // The round trip of an entry.

  predicate JsonFields(v: Value) {
    v.Obj? ==> forall k :: k in v.fields ==> IsJson(v.fields[k])
  }

  /** An entry as its types give it: JSON everywhere but at the bigint paths. */
  predicate Storable(e: Record) {
    && Headed(Obj(e)) && JsonFields(e[Announcement])
    && BigintsTyped(e[Prepared].fields, BIGINT_PATHS) && JsonElsewhere(e[Prepared].fields, BIGINT_PATHS)
  }

  predicate PathsKept(paths: seq<Path>) {
    forall i :: 0 <= i < |paths| ==>
      && paths[i].head in PREPARED_KEYS
      && (paths[i].leaf.Ok? ==> IsPart(paths[i].head) && paths[i].leaf.value in LeafKeys(paths[i].head))
      && (paths[i].leaf.Err? ==> !IsPart(paths[i].head))
  }

  lemma KeptPaths()
    ensures PathsKept(BIGINT_PATHS)
  {
  }

  function Place(path: Path): nat {
    if path == Path(OriginChainId, Err) then 0
    else if path == Path(DestinationChainId, Err) then 1
    else if path == Path(BidOutput, Err) then 2
    else if path == Path(AcceptBy, Err) then 3
    else if path == Path(FillAuthDomain, Ok(ChainId)) then 4
    else if path == Path(BondDomain, Ok(ChainId)) then 5
    else if path == Path(Lock, Ok(Amount)) then 6
    else if path == Path(Lock, Ok(ToChainId)) then 7
    else if path == Path(Lock, Ok(RefundableAt)) then 8
    else if path == Path(Terms, Ok(FromChainId)) then 9
    else if path == Path(Terms, Ok(FromAmount)) then 10
    else if path == Path(Terms, Ok(ToChainId)) then 11
    else if path == Path(Terms, Ok(FillDeadline)) then 12
    else if path == Path(Opening, Ok(ToAmount)) then 13
    else if path == Path(FillAuth, Ok(Amount)) then 14
    else if path == Path(FillAuth, Ok(Deadline)) then 15
    else 16
  }

  lemma PathsPlaced(i: nat)
    requires i < 16
    ensures Place(BIGINT_PATHS[i]) == i
  {
  }

  lemma PathsApart()
    ensures Apart(BIGINT_PATHS)
  {
    KeptPaths();
    forall i, j | 0 <= i < 16 && 0 <= j < 16 && i != j ensures BIGINT_PATHS[i] != BIGINT_PATHS[j] {
      PathsPlaced(i);
      PathsPlaced(j);
    }
  }

  lemma PickKeepsPath(p: Record, path: Path)
    requires PathsKept([path]) && HasPath(p, path)
    ensures HasPath(PickPrepared(p), path) && ValueAt(PickPrepared(p), path) == ValueAt(p, path)
  {
    assert [path][0] == path;
  }

  lemma PickKeepsTypes(p: Record, paths: seq<Path>)
    requires PathsKept(paths) && BigintsTyped(p, paths) && JsonElsewhere(p, paths)
    ensures BigintsTyped(PickPrepared(p), paths) && JsonElsewhere(PickPrepared(p), paths)
    ensures NonNegative(PickPrepared(p), paths) <==> NonNegative(p, paths)
  {
    forall i | 0 <= i < |paths|
      ensures HasPath(PickPrepared(p), paths[i]) && ValueAt(PickPrepared(p), paths[i]) == ValueAt(p, paths[i])
    {
      assert PathsKept([paths[i]]);
      PickKeepsPath(p, paths[i]);
    }
  }

  lemma TagOnly(f: Record, key: Key)
    requires key in f && forall k :: k in f && k != key ==> IsJson(f[k])
    ensures Tag(Obj(f)).fields == f[key := Tag(f[key])]
  {
    forall k | k in f && k != key ensures Tag(f[k]) == f[k] {
      TagJson(f[k]);
    }
  }

  lemma TaggedEntry(e: Record)
    requires Headed(Obj(e)) && JsonFields(e[Announcement])
    ensures var f := Persistable(e); Tag(Obj(f)).fields == f[Prepared := Tag(f[Prepared])]
  {
    var f := Persistable(e);
    assert e[Phase].Str?;
    assert IsJson(f[Announcement]);
    TagOnly(f, Prepared);
  }

  lemma NoCommitment(e: Record)
    requires Shaped(e)
    ensures WithoutCommitment(Persistable(e)[Announcement]) == Persistable(e)[Announcement]
  {
    var a := Persistable(e)[Announcement].fields;
    assert RecipientCommitment !in a;
    assert a - {RecipientCommitment} == a;
  }

  /** Decoding, when only the revived fields and a withdrawn key tell the result from the input. */
  lemma DecodeTagged(f: Record, tagged: Record, paths: seq<Path>, ok: bool)
    requires Headed(Obj(f)) && WithoutCommitment(f[Announcement]) == f[Announcement]
    requires HasStr(tagged, OrderId) && HasStr(tagged, FillId)
    requires ReviveFrom(tagged, paths, 0) == if ok then Ok(f[Prepared].fields) else Err
    ensures DecodeAt(Obj(f[Prepared := Obj(tagged)]), paths) == if ok then Ok(f) else Err
  {
    assert f[Prepared := Obj(tagged)][Prepared := f[Prepared]][Announcement := f[Announcement]] == f;
  }

  lemma PersistableHeaded(e: Record)
    requires Headed(Obj(e))
    ensures Headed(Obj(Persistable(e)))
    ensures var tagged := Tag(Persistable(e)[Prepared]).fields; HasStr(tagged, OrderId) && HasStr(tagged, FillId)
  {
    PickKeepsIds(e[Prepared].fields);
  }

  lemma PreparedPart(p: Record, paths: seq<Path>)
    requires PathsKept(paths) && Apart(paths) && BigintsTyped(p, paths) && JsonElsewhere(p, paths)
    ensures ReviveFrom(Tag(Obj(PickPrepared(p))).fields, paths, 0) ==
            if NonNegative(p, paths) then Ok(PickPrepared(p)) else Err
  {
    PickKeepsTypes(p, paths);
    PreparedRoundTrip(PickPrepared(p), paths);
  }

  lemma EntryRoundTripAt(e: Record, paths: seq<Path>, ok: bool)
    requires Headed(Obj(e)) && JsonFields(e[Announcement])
    requires ReviveFrom(Tag(Persistable(e)[Prepared]).fields, paths, 0) ==
             if ok then Ok(Persistable(e)[Prepared].fields) else Err
    ensures DecodeAt(Tag(Obj(Persistable(e))), paths) == if ok then Ok(Persistable(e)) else Err
  {
    var f := Persistable(e);
    PersistableHeaded(e);
    TaggedEntry(e);
    NoCommitment(e);
    DecodeTagged(f, Tag(f[Prepared]).fields, paths, ok);
    assert Tag(Obj(f)) == Obj(f[Prepared := Tag(f[Prepared])]);
  }

  /** An entry of the right types reads back as written exactly when none of its bigints is negative. */
  lemma EntryRoundTrip(e: Record)
    requires Storable(e)
    ensures Decode(Tag(Obj(Persistable(e)))) ==
            if NonNegative(e[Prepared].fields, BIGINT_PATHS) then Ok(Persistable(e)) else Err
  {
    KeptPaths();
    PathsApart();
    var p := e[Prepared].fields;
    PreparedPart(p, BIGINT_PATHS);
    EntryRoundTripAt(e, BIGINT_PATHS, NonNegative(p, BIGINT_PATHS));
  }

  lemma PickKeepsIds(p: Record)
    requires HasStr(p, OrderId) && HasStr(p, FillId)
    ensures HasStr(PickPrepared(p), OrderId) && HasStr(PickPrepared(p), FillId)
    ensures PickPrepared(p)[OrderId] == p[OrderId] && Tag(Obj(PickPrepared(p))).fields[OrderId] == p[OrderId]
    ensures Tag(Obj(PickPrepared(p))).fields[FillId] == p[FillId]
  {
  }

  lemma PersistableOnce(e: Record)
    requires Shaped(e)
    ensures Shaped(Persistable(e)) && Persistable(Persistable(e)) == Persistable(e)
  {
    var f := Persistable(e);
    var p, a := f[Prepared].fields, f[Announcement].fields;
    assert Pick(a, ANNOUNCEMENT_KEYS) == a;
    forall h | h in p && IsPart(h) && p[h].Obj? ensures Pick(p[h].fields, LeafKeys(h)) == p[h].fields {
    }
    assert PickPrepared(p) == p;
  }

  lemma PersistableStorableAt(e: Record, paths: seq<Path>)
    requires Shaped(e) && JsonFields(e[Announcement]) && PathsKept(paths)
    requires BigintsTyped(e[Prepared].fields, paths) && JsonElsewhere(e[Prepared].fields, paths)
    ensures var f := Persistable(e);
            && JsonFields(f[Announcement]) && BigintsTyped(f[Prepared].fields, paths) && JsonElsewhere(f[Prepared].fields, paths)
            && (NonNegative(f[Prepared].fields, paths) <==> NonNegative(e[Prepared].fields, paths))
  {
    PickKeepsTypes(e[Prepared].fields, paths);
  }

  lemma PersistableStorable(e: Record)
    requires Storable(e)
    ensures Storable(Persistable(e))
    ensures NonNegative(Persistable(e)[Prepared].fields, BIGINT_PATHS) <==> NonNegative(e[Prepared].fields, BIGINT_PATHS)
  {
    KeptPaths();
    PersistableHeaded(e);
    PersistableStorableAt(e, BIGINT_PATHS);
  }

  // Whatever decodes can be stored again.

  /** Revived up to here: the done paths hold what their types allow, the rest is JSON. */
  predicate Partial(p: Record, done: seq<Path>) {
    && (forall i :: 0 <= i < |done| ==>
          && HasPath(p, done[i])
          && var v := ValueAt(p, done[i]);
             (v.Big? && v.n >= 0) || (i >= REQUIRED_BIGINTS && IsPlainUint(v)))
    && JsonElsewhere(p, done)
  }

  lemma ReviveKeepsPartial(p: Record, done: seq<Path>, path: Path)
    requires Partial(p, done) && Fresh(done, path) && (path.leaf.Err? ==> forall i :: 0 <= i < |done| ==> done[i].head != path.head)
    requires ReviveAt(p, path, |done| < REQUIRED_BIGINTS).Ok?
    ensures Partial(ReviveAt(p, path, |done| < REQUIRED_BIGINTS).value, done + [path])
  {
    var q := ReviveAt(p, path, |done| < REQUIRED_BIGINTS).value;
    var more := done + [path];
    forall i | 0 <= i < |done| ensures HasPath(q, done[i]) && ValueAt(q, done[i]) == ValueAt(p, done[i]) {
      assert done[i] != path;
    }
    forall h | h in q && Path(h, Err) !in more ensures if q[h].Obj? then LeafPlain(more, h, q[h].fields) else IsJson(q[h]) {
      if h == path.head {
      } else {
        assert q[h] == p[h];
        assert Path(h, Err) !in done;
      }
    }
  }

  predicate SparesIds(paths: seq<Path>) {
    forall i :: 0 <= i < |paths| ==> paths[i].head != OrderId && paths[i].head != FillId
  }

  ghost predicate SameIds(p: Record, q: Record) {
    forall k :: k == OrderId || k == FillId ==> (k in q <==> k in p) && (k in p ==> q[k] == p[k])
  }

  lemma FreshNext(paths: seq<Path>, i: nat)
    requires i < |paths| && Apart(paths)
    ensures Fresh(paths[..i], paths[i]) && paths[..i + 1] == paths[..i] + [paths[i]]
    ensures paths[i].leaf.Err? ==> forall j :: 0 <= j < i ==> paths[..i][j].head != paths[i].head
  {
  }

  predicate PartialTo(p: Record, paths: seq<Path>, i: nat) {
    i <= |paths| && Partial(p, paths[..i])
  }

  lemma NextPartial(p: Record, paths: seq<Path>, i: nat)
    requires i < |paths| && Apart(paths) && PartialTo(p, paths, i)
    requires ReviveAt(p, paths[i], i < REQUIRED_BIGINTS).Ok?
    ensures PartialTo(ReviveAt(p, paths[i], i < REQUIRED_BIGINTS).value, paths, i + 1)
  {
    FreshNext(paths, i);
    ReviveKeepsPartial(p, paths[..i], paths[i]);
  }

  lemma ReviveKeepsIds(p: Record, path: Path, required: bool)
    requires ReviveAt(p, path, required).Ok? && SparesIds([path])
    ensures SameIds(p, ReviveAt(p, path, required).value)
  {
    assert [path][0] == path;
  }

  lemma PartialAll(p: Record, paths: seq<Path>)
    requires PartialTo(p, paths, |paths|)
    ensures Partial(p, paths)
  {
    assert paths[..|paths|] == paths;
  }

  /** What every revived path keeps, from the first left to the last. */
  lemma {:induction false} ReviveInduction(P: (Record, nat) -> bool, p: Record, paths: seq<Path>, i: nat, last: Record)
    requires i <= |paths| && P(p, i) && ReviveFrom(p, paths, i) == Ok(last)
    requires forall q, k: nat :: k < |paths| && P(q, k) && ReviveAt(q, paths[k], k < REQUIRED_BIGINTS).Ok? ==>
                              P(ReviveAt(q, paths[k], k < REQUIRED_BIGINTS).value, k + 1)
    ensures P(last, |paths|)
    decreases |paths| - i
  {
    if i < |paths| {
      ReviveInduction(P, ReviveAt(p, paths[i], i < REQUIRED_BIGINTS).value, paths, i + 1, last);
    }
  }

  lemma RestKeepsPartial(p: Record, paths: seq<Path>, last: Record)
    requires Apart(paths) && Partial(p, []) && ReviveFrom(p, paths, 0) == Ok(last)
    ensures Partial(last, paths)
  {
    var P := (q: Record, k: nat) => PartialTo(q, paths, k);
    assert paths[..0] == [];
    forall q, k: nat | k < |paths| && P(q, k) && ReviveAt(q, paths[k], k < REQUIRED_BIGINTS).Ok?
      ensures P(ReviveAt(q, paths[k], k < REQUIRED_BIGINTS).value, k + 1)
    {
      NextPartial(q, paths, k);
    }
    ReviveInduction(P, p, paths, 0, last);
    PartialAll(last, paths);
  }

  lemma {:induction false} RestKeepsIds(p: Record, paths: seq<Path>, i: nat)
    requires i <= |paths| && SparesIds(paths) && ReviveFrom(p, paths, i).Ok?
    ensures SameIds(p, ReviveFrom(p, paths, i).value)
    decreases |paths| - i
  {
    if i < |paths| {
      ReviveKeepsIds(p, paths[i], i < REQUIRED_BIGINTS);
      RestKeepsIds(ReviveAt(p, paths[i], i < REQUIRED_BIGINTS).value, paths, i + 1);
    }
  }

  lemma PartialTyped(p: Record, paths: seq<Path>)
    requires Partial(p, paths)
    ensures BigintsTyped(p, paths) && JsonElsewhere(p, paths) && NonNegative(p, paths)
  {
  }

  lemma IdsSpared()
    ensures SparesIds(BIGINT_PATHS)
  {
  }

  lemma DecodedParts(v: Value, paths: seq<Path>)
    requires IsJson(v) && DecodeAt(v, paths).Ok? && Apart(paths)
    ensures var e := DecodeAt(v, paths).value;
            Prepared in e && e[Prepared].Obj? && Partial(e[Prepared].fields, paths)
  {
    assert IsJson(v.fields[Prepared]);
    var p := v.fields[Prepared].fields;
    RestKeepsPartial(p, paths, ReviveFrom(p, paths, 0).value);
  }

  lemma DecodedHeaded(v: Value, paths: seq<Path>)
    requires DecodeAt(v, paths).Ok? && SparesIds(paths)
    ensures Headed(Obj(DecodeAt(v, paths).value))
  {
    var p := v.fields[Prepared].fields;
    RestKeepsIds(p, paths, 0);
    assert SameIds(p, ReviveFrom(p, paths, 0).value);
  }

  lemma DecodedAnnouncement(v: Value, paths: seq<Path>)
    requires IsJson(v) && DecodeAt(v, paths).Ok?
    ensures Announcement in DecodeAt(v, paths).value && JsonFields(DecodeAt(v, paths).value[Announcement])
  {
    assert IsJson(v.fields[Announcement]);
  }

  /** Whatever a file holds, an entry that decodes can be written and read again. */
  lemma DecodedStorable(v: Value)
    requires IsJson(v) && Decode(v).Ok?
    ensures Storable(Decode(v).value) && NonNegative(Decode(v).value[Prepared].fields, BIGINT_PATHS)
  {
    PathsApart();
    IdsSpared();
    DecodedParts(v, BIGINT_PATHS);
    DecodedHeaded(v, BIGINT_PATHS);
    DecodedAnnouncement(v, BIGINT_PATHS);
    PartialTyped(Decode(v).value[Prepared].fields, BIGINT_PATHS);
  }
}
