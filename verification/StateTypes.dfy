/**
 The entry of SOLVER_STATE_FILE by its fields: what survives being written and read again, whatever
 else the venue's objects carry.
 */
module StateTypes {
  import opened Numerals
  import opened StateFormat
  import opened Wrappers

  /** A uint off the wire, or the bigint made of one. */
  datatype Uint = BigUint(n: int) | NumberUint(m: nat) | TextUint(s: string)

  datatype DestOpening = DestOpening(recipient: string, toToken: string, toAmount: Uint, blinding: string, intentId: string)

  datatype OrderTerms = OrderTerms(
    depositor: string, fromChainId: Uint, fromToken: string, fromAmount: Uint, toChainId: Uint, fillDeadline: Uint,
    escrow: string, destCommitment: string)

  datatype FillAuthorization = FillAuthorization(
    fillId: string, filler: string, to: string, token: string, amount: Uint, deadline: Uint)

  datatype Domain = Domain(chainId: int, verifyingContract: string)

  datatype OpenedLock = OpenedLock(
    orderId: string, depositor: string, token: string, amount: int, toChainId: int, refundableAt: int,
    verifier: string, blockNumber: nat, blockHash: string)

  datatype PreparedFill = PreparedFill(
    auctionId: string, orderId: string, fillId: string, opening: DestOpening, terms: OrderTerms,
    fillAuth: FillAuthorization, fillAuthSignature: string, fillAuthDomain: Domain, payee: string, acceptBy: int,
    originChainId: int, destinationChainId: int, lock: OpenedLock, fillAuthSigner: string, bondDomain: Domain,
    bidOutput: int)

  datatype IntentAnnouncement = IntentAnnouncement(
    intentId: string, auctionId: string, orderId: string, fromChainId: nat, toChainId: nat, fromToken: string,
    toToken: string, swapKind: string, fromAmount: Option<string>, outputAmount: Option<string>,
    settlementPreference: string, minOutput: string, opensAt: nat, closesAt: nat, exclusiveWindowMs: nat)

  datatype Stage = Accepting | Accepted | Filled

  datatype PersistedFill = PersistedFill(
    auctionId: string, announcement: IntentAnnouncement, output: string, prepared: PreparedFill, phase: Stage)

  // The JavaScript objects.

  function StageText(phase: Stage): string {
    match phase
    case Accepting => "accepting"
    case Accepted => "accepted"
    case Filled => "filled"
  }

  function UintValue(u: Uint): Value {
    match u
    case BigUint(n) => Big(n)
    case NumberUint(m) => Num(m as real)
    case TextUint(s) => Str(s)
  }

  predicate UintOk(u: Uint) {
    match u
    case BigUint(_) => true
    case NumberUint(m) => m <= 9007199254740991
    case TextUint(s) => IsNumeral(s, 10)
  }

  function NumOf(n: nat): Value {
    Num(n as real)
  }

  // Each type's properties and their values.

  function OpeningAt(o: DestOpening, k: Key): Option<Value> {
    match k
    case Recipient => Some(Str(o.recipient))
    case ToToken => Some(Str(o.toToken))
    case ToAmount => Some(UintValue(o.toAmount))
    case Blinding => Some(Str(o.blinding))
    case IntentId => Some(Str(o.intentId))
    case _ => None
  }

  function TermsAt(t: OrderTerms, k: Key): Option<Value> {
    match k
    case Depositor => Some(Str(t.depositor))
    case FromChainId => Some(UintValue(t.fromChainId))
    case FromToken => Some(Str(t.fromToken))
    case FromAmount => Some(UintValue(t.fromAmount))
    case ToChainId => Some(UintValue(t.toChainId))
    case FillDeadline => Some(UintValue(t.fillDeadline))
    case Escrow => Some(Str(t.escrow))
    case DestCommitment => Some(Str(t.destCommitment))
    case _ => None
  }

  function FillAuthAt(a: FillAuthorization, k: Key): Option<Value> {
    match k
    case FillId => Some(Str(a.fillId))
    case Filler => Some(Str(a.filler))
    case To => Some(Str(a.to))
    case Token => Some(Str(a.token))
    case Amount => Some(UintValue(a.amount))
    case Deadline => Some(UintValue(a.deadline))
    case _ => None
  }

  function DomainAt(d: Domain, k: Key): Option<Value> {
    match k
    case ChainId => Some(Big(d.chainId))
    case VerifyingContract => Some(Str(d.verifyingContract))
    case _ => None
  }

  function LockAt(l: OpenedLock, k: Key): Option<Value> {
    match k
    case OrderId => Some(Str(l.orderId))
    case Depositor => Some(Str(l.depositor))
    case Token => Some(Str(l.token))
    case Amount => Some(Big(l.amount))
    case ToChainId => Some(Big(l.toChainId))
    case RefundableAt => Some(Big(l.refundableAt))
    case Verifier => Some(Str(l.verifier))
    case BlockNumber => Some(NumOf(l.blockNumber))
    case BlockHash => Some(Str(l.blockHash))
    case _ => None
  }

  function PartAt(p: PreparedFill, head: Key, k: Key): Option<Value> {
    match head
    case Opening => OpeningAt(p.opening, k)
    case Terms => TermsAt(p.terms, k)
    case FillAuth => FillAuthAt(p.fillAuth, k)
    case FillAuthDomain => DomainAt(p.fillAuthDomain, k)
    case Lock => LockAt(p.lock, k)
    case BondDomain => DomainAt(p.bondDomain, k)
    case _ => None
  }

  predicate IsNested(head: Key) {
    match head
    case Opening => true
    case Terms => true
    case FillAuth => true
    case FillAuthDomain => true
    case Lock => true
    case BondDomain => true
    case _ => false
  }

  function PlainAt(p: PreparedFill, k: Key): Option<Value> {
    match k
    case AuctionId => Some(Str(p.auctionId))
    case OrderId => Some(Str(p.orderId))
    case FillId => Some(Str(p.fillId))
    case FillAuthSignature => Some(Str(p.fillAuthSignature))
    case Payee => Some(Str(p.payee))
    case AcceptBy => Some(Big(p.acceptBy))
    case OriginChainId => Some(Big(p.originChainId))
    case DestinationChainId => Some(Big(p.destinationChainId))
    case FillAuthSigner => Some(Str(p.fillAuthSigner))
    case BidOutput => Some(Big(p.bidOutput))
    case _ => None
  }

  function OptionalText(s: Option<string>): Option<Value> {
    if s.Some? then Some(Str(s.value)) else None
  }

  function AnnouncementAt(a: IntentAnnouncement, k: Key): Option<Value> {
    match k
    case IntentId => Some(Str(a.intentId))
    case AuctionId => Some(Str(a.auctionId))
    case OrderId => Some(Str(a.orderId))
    case FromChainId => Some(NumOf(a.fromChainId))
    case ToChainId => Some(NumOf(a.toChainId))
    case FromToken => Some(Str(a.fromToken))
    case ToToken => Some(Str(a.toToken))
    case SwapKind => Some(Str(a.swapKind))
    case FromAmount => OptionalText(a.fromAmount)
    case OutputAmount => OptionalText(a.outputAmount)
    case SettlementPreference => Some(Str(a.settlementPreference))
    case MinOutput => Some(Str(a.minOutput))
    case OpensAt => Some(NumOf(a.opensAt))
    case ClosesAt => Some(NumOf(a.closesAt))
    case ExclusiveWindowMs => Some(NumOf(a.exclusiveWindowMs))
    case _ => None
  }

  function EntryAt(x: PersistedFill, k: Key): Option<Value> {
    match k
    case AuctionId => Some(Str(x.auctionId))
    case Output => Some(Str(x.output))
    case Phase => Some(Str(StageText(x.phase)))
    case _ => None
  }

  // Records with these properties, and with these properties only.

  /** The value a record has at a property, if any. */
  function At(r: Record, k: Key): Option<Value> {
    if k in r then Some(r[k]) else None
  }

  ghost predicate CarriesPart(r: Record, p: PreparedFill, head: Key) {
    head in r && r[head].Obj? && forall k :: PartAt(p, head, k).Some? ==> At(r[head].fields, k) == PartAt(p, head, k)
  }

  /** The venue's objects may have any other properties; an absent optional amount is no property. */
  ghost predicate Carries(e: Record, x: PersistedFill) {
    && (forall k :: EntryAt(x, k).Some? ==> At(e, k) == EntryAt(x, k))
    && Announcement in e && e[Announcement].Obj?
    && (forall k :: AnnouncementAt(x.announcement, k).Some? || k == FromAmount || k == OutputAmount ==>
                      At(e[Announcement].fields, k) == AnnouncementAt(x.announcement, k))
    && Prepared in e && e[Prepared].Obj?
    && (forall k :: PlainAt(x.prepared, k).Some? ==> At(e[Prepared].fields, k) == PlainAt(x.prepared, k))
    && (forall head :: IsNested(head) ==> CarriesPart(e[Prepared].fields, x.prepared, head))
  }

  ghost predicate IsThePart(r: Record, p: PreparedFill, head: Key) {
    head in r && r[head].Obj? && forall k :: At(r[head].fields, k) == PartAt(p, head, k)
  }

  ghost predicate IsPrepared(r: Record, p: PreparedFill) {
    && (forall k :: !IsNested(k) ==> At(r, k) == PlainAt(p, k))
    && (forall head :: IsNested(head) ==> IsThePart(r, p, head))
  }

  ghost predicate IsAnnouncement(r: Record, a: IntentAnnouncement) {
    forall k :: At(r, k) == AnnouncementAt(a, k)
  }

  /** The typed entry and nothing else, at every level. */
  ghost predicate IsExactly(e: Record, x: PersistedFill) {
    && (forall k :: k != Announcement && k != Prepared ==> At(e, k) == EntryAt(x, k))
    && Announcement in e && e[Announcement].Obj? && IsAnnouncement(e[Announcement].fields, x.announcement)
    && Prepared in e && e[Prepared].Obj? && IsPrepared(e[Prepared].fields, x.prepared)
  }

  /** Its uints are of the wire's shape. */
  predicate Typed(x: PersistedFill) {
    var p := x.prepared;
    && UintOk(p.opening.toAmount) && UintOk(p.terms.fromChainId) && UintOk(p.terms.fromAmount)
    && UintOk(p.terms.toChainId) && UintOk(p.terms.fillDeadline) && UintOk(p.fillAuth.amount) && UintOk(p.fillAuth.deadline)
  }

  predicate UintNonNegative(u: Uint) {
    u.BigUint? ==> u.n >= 0
  }

  predicate NoNegativeBigint(x: PersistedFill) {
    var p := x.prepared;
    && p.acceptBy >= 0 && p.originChainId >= 0 && p.destinationChainId >= 0 && p.bidOutput >= 0
    && p.fillAuthDomain.chainId >= 0 && p.bondDomain.chainId >= 0
    && p.lock.amount >= 0 && p.lock.toChainId >= 0 && p.lock.refundableAt >= 0
    && UintNonNegative(p.opening.toAmount) && UintNonNegative(p.terms.fromChainId) && UintNonNegative(p.terms.fromAmount)
    && UintNonNegative(p.terms.toChainId) && UintNonNegative(p.terms.fillDeadline)
    && UintNonNegative(p.fillAuth.amount) && UintNonNegative(p.fillAuth.deadline)
  }

  // What is picked to be written.

  lemma OpeningNamed(o: DestOpening, k: Key)
    ensures k in LeafKeys(Opening) <==> OpeningAt(o, k).Some?
  {
  }

  lemma TermsNamed(t: OrderTerms, k: Key)
    ensures k in LeafKeys(Terms) <==> TermsAt(t, k).Some?
  {
    match k
    case Depositor => assert k in LeafKeys(Terms);
    case FromChainId => assert k in LeafKeys(Terms);
    case FromToken => assert k in LeafKeys(Terms);
    case FromAmount => assert k in LeafKeys(Terms);
    case ToChainId => assert k in LeafKeys(Terms);
    case FillDeadline => assert k in LeafKeys(Terms);
    case Escrow => assert k in LeafKeys(Terms);
    case DestCommitment => assert k in LeafKeys(Terms);
    case _ =>
  }

  lemma FillAuthNamed(a: FillAuthorization, k: Key)
    ensures k in LeafKeys(FillAuth) <==> FillAuthAt(a, k).Some?
  {
  }

  lemma LockNamed(l: OpenedLock, k: Key)
    ensures k in LeafKeys(Lock) <==> LockAt(l, k).Some?
  {
  }

  lemma DomainNamed(d: Domain, k: Key)
    ensures LeafKeys(FillAuthDomain) == LeafKeys(BondDomain) && (k in LeafKeys(BondDomain) <==> DomainAt(d, k).Some?)
  {
  }

  lemma PartNamed(p: PreparedFill, head: Key, k: Key)
    requires IsNested(head)
    ensures IsPart(head) && (k in LeafKeys(head) <==> PartAt(p, head, k).Some?)
  {
    match head
    case Opening => OpeningNamed(p.opening, k);
    case Terms => TermsNamed(p.terms, k);
    case FillAuth => FillAuthNamed(p.fillAuth, k);
    case Lock => LockNamed(p.lock, k);
    case FillAuthDomain => DomainNamed(p.fillAuthDomain, k);
    case BondDomain => DomainNamed(p.bondDomain, k);
  }

  lemma PlainNamed(p: PreparedFill, k: Key)
    ensures IsPart(k) <==> IsNested(k)
    ensures k in PREPARED_KEYS <==> IsNested(k) || PlainAt(p, k).Some?
  {
  }

  lemma AnnouncementNamed(a: IntentAnnouncement, k: Key)
    ensures k in ANNOUNCEMENT_KEYS <==> AnnouncementAt(a, k).Some? || k == FromAmount || k == OutputAmount
  {
  }

  lemma PickedPart(r: Record, p: PreparedFill, head: Key)
    requires IsNested(head) && CarriesPart(r, p, head)
    ensures IsPart(head) && forall k :: At(Pick(r[head].fields, LeafKeys(head)), k) == PartAt(p, head, k)
  {
    forall k ensures IsPart(head) && At(Pick(r[head].fields, LeafKeys(head)), k) == PartAt(p, head, k) {
      PartNamed(p, head, k);
    }
    PartNamed(p, head, head);
  }

  lemma PickedPrepared(r: Record, p: PreparedFill)
    requires forall k :: PlainAt(p, k).Some? ==> At(r, k) == PlainAt(p, k)
    requires forall head :: IsNested(head) ==> CarriesPart(r, p, head)
    ensures IsPrepared(PickPrepared(r), p)
  {
    var q := PickPrepared(r);
    forall k | !IsNested(k) ensures At(q, k) == PlainAt(p, k) {
      PlainNamed(p, k);
    }
    forall head | IsNested(head) ensures IsThePart(q, p, head) {
      PlainNamed(p, head);
      PickedPart(r, p, head);
      assert CarriesPart(r, p, head) && q[head] == Obj(Pick(r[head].fields, LeafKeys(head)));
    }
  }

  lemma PickedAnnouncement(r: Record, a: IntentAnnouncement)
    requires forall k :: AnnouncementAt(a, k).Some? || k == FromAmount || k == OutputAmount ==> At(r, k) == AnnouncementAt(a, k)
    ensures IsAnnouncement(Pick(r, ANNOUNCEMENT_KEYS), a)
  {
    forall k ensures At(Pick(r, ANNOUNCEMENT_KEYS), k) == AnnouncementAt(a, k) {
      AnnouncementNamed(a, k);
    }
  }

  lemma CarriesShaped(e: Record, x: PersistedFill)
    requires Carries(e, x)
    ensures Shaped(e)
  {
    assert EntryAt(x, AuctionId).Some? && EntryAt(x, Output).Some? && EntryAt(x, Phase).Some?;
  }

  lemma PersistableHas(e: Record)
    requires Shaped(e)
    ensures var f := Persistable(e);
            && f.Keys == {AuctionId, Announcement, Output, Prepared, Phase}
            && f[AuctionId] == e[AuctionId] && f[Output] == e[Output] && f[Phase] == e[Phase]
  {
  }

  lemma TopExactly(f: Record, x: PersistedFill, k: Key)
    requires f.Keys == {AuctionId, Announcement, Output, Prepared, Phase} && k != Announcement && k != Prepared
    requires At(f, AuctionId) == EntryAt(x, AuctionId) && At(f, Output) == EntryAt(x, Output) && At(f, Phase) == EntryAt(x, Phase)
    ensures At(f, k) == EntryAt(x, k)
  {
    assert k in f <==> k == AuctionId || k == Output || k == Phase;
  }

  lemma PersistableIsExactly(e: Record, x: PersistedFill)
    requires Carries(e, x)
    ensures Shaped(e) && IsExactly(Persistable(e), x)
  {
    CarriesShaped(e, x);
    PickedPrepared(e[Prepared].fields, x.prepared);
    PickedAnnouncement(e[Announcement].fields, x.announcement);
    PersistableHas(e);
    assert EntryAt(x, AuctionId).Some? && EntryAt(x, Output).Some? && EntryAt(x, Phase).Some?;
    forall k | k != Announcement && k != Prepared ensures At(Persistable(e), k) == EntryAt(x, k) {
      TopExactly(Persistable(e), x, k);
    }
  }

  // What is written is storable.

  lemma UintTyped(u: Uint)
    requires UintOk(u)
    ensures UintValue(u).Big? || IsPlainUint(UintValue(u))
  {
    if u.NumberUint? {
      assert (u.m as real).Floor == u.m;
    }
  }

  /** What a bigint path leads to. */
  predicate PathOk(r: Record, x: PersistedFill, path: Path, i: nat) {
    && HasPath(r, path)
    && (ValueAt(r, path).Big? || (i >= REQUIRED_BIGINTS && IsPlainUint(ValueAt(r, path))))
  }

  lemma PlainPath(r: Record, x: PersistedFill, path: Path)
    requires IsPrepared(r, x.prepared) && Place(path) < 4
    ensures PathOk(r, x, path, Place(path)) && ValueAt(r, path).Big?
    ensures var p, n := x.prepared, ValueAt(r, path).n;
            n == if Place(path) == 0 then p.originChainId else if Place(path) == 1 then p.destinationChainId
                 else if Place(path) == 2 then p.bidOutput else p.acceptBy
  {
    assert At(r, path.head) == PlainAt(x.prepared, path.head);
  }

  function NestedUint(p: PreparedFill, place: nat): Uint
    requires 4 <= place < 16
  {
    match place
    case 4 => BigUint(p.fillAuthDomain.chainId)
    case 5 => BigUint(p.bondDomain.chainId)
    case 6 => BigUint(p.lock.amount)
    case 7 => BigUint(p.lock.toChainId)
    case 8 => BigUint(p.lock.refundableAt)
    case 9 => p.terms.fromChainId
    case 10 => p.terms.fromAmount
    case 11 => p.terms.toChainId
    case 12 => p.terms.fillDeadline
    case 13 => p.opening.toAmount
    case 14 => p.fillAuth.amount
    case 15 => p.fillAuth.deadline
  }

  function NestedPathOf(place: nat): (Key, Key)
    requires 4 <= place < 16
  {
    match place
    case 4 => (FillAuthDomain, ChainId)
    case 5 => (BondDomain, ChainId)
    case 6 => (Lock, Amount)
    case 7 => (Lock, ToChainId)
    case 8 => (Lock, RefundableAt)
    case 9 => (Terms, FromChainId)
    case 10 => (Terms, FromAmount)
    case 11 => (Terms, ToChainId)
    case 12 => (Terms, FillDeadline)
    case 13 => (Opening, ToAmount)
    case 14 => (FillAuth, Amount)
    case 15 => (FillAuth, Deadline)
  }

  lemma NestedPlaced(path: Path)
    requires 4 <= Place(path) < 16
    ensures path == Path(NestedPathOf(Place(path)).0, Ok(NestedPathOf(Place(path)).1))
  {
  }

  lemma NestedAt(p: PreparedFill, place: nat)
    requires 4 <= place < 16
    ensures var (head, leaf) := NestedPathOf(place);
            IsNested(head) && PartAt(p, head, leaf) == Some(UintValue(NestedUint(p, place)))
  {
  }

  /** The part and the leaf a nested place names, and what they hold. */
  lemma NestedPlace(p: PreparedFill, path: Path)
    requires 4 <= Place(path) < 16
    ensures path.leaf.Ok? && IsNested(path.head)
    ensures PartAt(p, path.head, path.leaf.value) == Some(UintValue(NestedUint(p, Place(path))))
  {
    NestedPlaced(path);
    NestedAt(p, Place(path));
  }

  lemma NestedOk(x: PersistedFill, place: nat)
    requires Typed(x) && 4 <= place < 16
    ensures UintOk(NestedUint(x.prepared, place)) && (place < 9 ==> NestedUint(x.prepared, place).BigUint?)
  {
  }

  lemma NestedPath(r: Record, x: PersistedFill, path: Path)
    requires IsPrepared(r, x.prepared) && Typed(x) && 4 <= Place(path) < 16
    ensures HasPath(r, path) && ValueAt(r, path) == UintValue(NestedUint(x.prepared, Place(path)))
    ensures PathOk(r, x, path, Place(path))
  {
    NestedPlace(x.prepared, path);
    NestedOk(x, Place(path));
    assert IsThePart(r, x.prepared, path.head);
    assert At(r[path.head].fields, path.leaf.value) == PartAt(x.prepared, path.head, path.leaf.value);
    UintTyped(NestedUint(x.prepared, Place(path)));
  }

  lemma PathsOk(r: Record, x: PersistedFill)
    requires IsPrepared(r, x.prepared) && Typed(x)
    ensures BigintsTyped(r, BIGINT_PATHS)
  {
    forall i | 0 <= i < |BIGINT_PATHS| ensures PathOk(r, x, BIGINT_PATHS[i], i) {
      PathsPlaced(i);
      if i < 4 {
        PlainPath(r, x, BIGINT_PATHS[i]);
      } else {
        NestedPath(r, x, BIGINT_PATHS[i]);
      }
    }
  }

  /** The bigint at the i-th place, if there is one, is negative. */
  predicate NegativeAt(x: PersistedFill, i: nat)
    requires i < 16
  {
    if i == 0 then x.prepared.originChainId < 0
    else if i == 1 then x.prepared.destinationChainId < 0
    else if i == 2 then x.prepared.bidOutput < 0
    else if i == 3 then x.prepared.acceptBy < 0
    else !UintNonNegative(NestedUint(x.prepared, i))
  }

  lemma Signs(r: Record, x: PersistedFill, i: nat)
    requires IsPrepared(r, x.prepared) && Typed(x) && i < 16
    ensures Negative(r, BIGINT_PATHS[i]) <==> NegativeAt(x, i)
  {
    PathsPlaced(i);
    if i < 4 {
      PlainPath(r, x, BIGINT_PATHS[i]);
    } else {
      NestedPath(r, x, BIGINT_PATHS[i]);
    }
  }

  lemma Negatives(r: Record, x: PersistedFill)
    requires IsPrepared(r, x.prepared) && Typed(x)
    ensures NonNegative(r, BIGINT_PATHS) <==> NoNegativeBigint(x)
  {
    assert |BIGINT_PATHS| == 16;
    forall i | 0 <= i < 16 ensures Negative(r, BIGINT_PATHS[i]) <==> NegativeAt(x, i) {
      Signs(r, x, i);
    }
    NoneNegative(x);
  }

  lemma NoneNegative(x: PersistedFill)
    ensures NoNegativeBigint(x) <==> forall i :: 0 <= i < 16 ==> !NegativeAt(x, i)
  {
    if NoNegativeBigint(x) {
      forall i | 0 <= i < 16 ensures !NegativeAt(x, i) {
      }
    } else {
      assert NegativeAt(x, 0) || NegativeAt(x, 1) || NegativeAt(x, 2) || NegativeAt(x, 3) || NegativeAt(x, 4)
             || NegativeAt(x, 5) || NegativeAt(x, 6) || NegativeAt(x, 7) || NegativeAt(x, 8) || NegativeAt(x, 9)
             || NegativeAt(x, 10) || NegativeAt(x, 11) || NegativeAt(x, 12) || NegativeAt(x, 13) || NegativeAt(x, 14)
             || NegativeAt(x, 15);
    }
  }

  lemma PlaceIsPath(path: Path)
    requires Place(path) < 16
    ensures BIGINT_PATHS[Place(path)] == path
  {
    PathsPlaced(Place(path));
  }

  lemma JsonApart(r: Record, x: PersistedFill)
    requires IsPrepared(r, x.prepared)
    ensures JsonElsewhere(r, BIGINT_PATHS)
  {
    forall h | h in r && Path(h, Err) !in BIGINT_PATHS
      ensures if r[h].Obj? then LeafPlain(BIGINT_PATHS, h, r[h].fields) else IsJson(r[h])
    {
      if IsNested(h) {
        assert IsThePart(r, x.prepared, h);
        forall k | k in r[h].fields && Path(h, Ok(k)) !in BIGINT_PATHS ensures IsJson(r[h].fields[k]) {
          assert At(r[h].fields, k) == PartAt(x.prepared, h, k);
          if Place(Path(h, Ok(k))) < 16 {
            PlaceIsPath(Path(h, Ok(k)));
          }
        }
      } else {
        assert At(r, h) == PlainAt(x.prepared, h);
        if Place(Path(h, Err)) < 16 {
          PlaceIsPath(Path(h, Err));
        }
      }
    }
  }

  lemma PhaseKnown(phase: Stage)
    ensures Str(StageText(phase)) in PHASES
  {
  }

  lemma AnnouncementJson(a: IntentAnnouncement, k: Key)
    ensures AnnouncementAt(a, k).Some? ==> IsJson(AnnouncementAt(a, k).value)
  {
  }

  lemma AnnouncementPlain(f: Value, a: IntentAnnouncement)
    requires f.Obj? && IsAnnouncement(f.fields, a)
    ensures JsonFields(f)
  {
    forall k | k in f.fields ensures IsJson(f.fields[k]) {
      assert At(f.fields, k) == AnnouncementAt(a, k);
      AnnouncementJson(a, k);
    }
  }

  lemma PreparedIds(r: Record, p: PreparedFill)
    requires IsPrepared(r, p)
    ensures HasStr(r, OrderId) && HasStr(r, FillId)
  {
    assert At(r, OrderId) == PlainAt(p, OrderId) && At(r, FillId) == PlainAt(p, FillId);
  }

  lemma HeadedExactly(f: Record, x: PersistedFill)
    requires IsExactly(f, x)
    ensures Headed(Obj(f)) && JsonFields(f[Announcement])
  {
    assert At(f, AuctionId) == EntryAt(x, AuctionId) && At(f, Output) == EntryAt(x, Output) && At(f, Phase) == EntryAt(x, Phase);
    PhaseKnown(x.phase);
    PreparedIds(f[Prepared].fields, x.prepared);
    AnnouncementPlain(f[Announcement], x.announcement);
  }

  lemma ExactlyCarries(f: Record, x: PersistedFill)
    requires IsExactly(f, x)
    ensures Carries(f, x)
  {
    forall head | IsNested(head) ensures CarriesPart(f[Prepared].fields, x.prepared, head) {
      assert IsThePart(f[Prepared].fields, x.prepared, head);
    }
  }

  /** No two records are exactly the same entry. */
  lemma ExactlyOne(e: Record, f: Record, x: PersistedFill)
    requires IsExactly(e, x) && IsExactly(f, x)
    ensures e == f
  {
    SamePrepared(e[Prepared].fields, f[Prepared].fields, x.prepared);
    SameAt(e[Announcement].fields, f[Announcement].fields);
    SameAt(e, f);
  }

  lemma SameAt(e: Record, f: Record)
    ensures (forall k :: At(e, k) == At(f, k)) ==> e == f
  {
    if forall k :: At(e, k) == At(f, k) {
      forall k ensures (k in e <==> k in f) && (k in e ==> e[k] == f[k]) {
        assert At(e, k) == At(f, k);
      }
    }
  }

  lemma SamePrepared(e: Record, f: Record, p: PreparedFill)
    requires IsPrepared(e, p) && IsPrepared(f, p)
    ensures e == f
  {
    forall k ensures At(e, k) == At(f, k) {
      if IsNested(k) {
        assert IsThePart(e, p, k) && IsThePart(f, p, k);
        SameAt(e[k].fields, f[k].fields);
      }
    }
    SameAt(e, f);
  }

  lemma StorableExactly(f: Record, x: PersistedFill)
    requires IsExactly(f, x) && Typed(x)
    ensures Storable(f) && (NonNegative(f[Prepared].fields, BIGINT_PATHS) <==> NoNegativeBigint(x))
  {
    HeadedExactly(f, x);
    PathsOk(f[Prepared].fields, x);
    JsonApart(f[Prepared].fields, x);
    Negatives(f[Prepared].fields, x);
  }

  /**
   Field by field: whatever else the objects of an entry carry, writing it and reading it back gives
   exactly its typed fields, every one of them and nothing more, if no bigint among them is negative;
   otherwise the entry is refused.
   */
  lemma TypedRoundTrip(e: Record, x: PersistedFill)
    requires Typed(x) && Carries(e, x)
    ensures Shaped(e)
    ensures var back := Decode(Tag(Obj(Persistable(e)))); if NoNegativeBigint(x) then back.Ok? && IsExactly(back.value, x) else back.Err?
  {
    PersistableIsExactly(e, x);
    var f := Persistable(e);
    StorableExactly(f, x);
    ExactlyCarries(f, x);
    PersistableIsExactly(f, x);
    ExactlyOne(Persistable(f), f, x);
    EntryRoundTrip(f);
  }

  // What decodes, by name.

  predicate NonNegativeBig(v: Value) {
    v.Big? && v.n >= 0
  }

  predicate IsWhole(x: real, m: nat) {
    x == m as real
  }

  /** A non-negative bigint, a decimal, or a whole number that is exact. */
  ghost predicate IsUint(v: Value) {
    || NonNegativeBig(v)
    || (v.Str? && IsNumeral(v.s, 10))
    || (v.Num? && exists m: nat :: m <= 9007199254740991 && IsWhole(v.x, m))
  }

  ghost predicate UintIn(p: Record, head: Key, leaf: Key) {
    head in p && p[head].Obj? && leaf in p[head].fields && IsUint(p[head].fields[leaf])
  }

  predicate BigIn(p: Record, head: Key, leaf: Key) {
    head in p && p[head].Obj? && leaf in p[head].fields && NonNegativeBig(p[head].fields[leaf])
  }

  predicate BigAt(p: Record, key: Key) {
    key in p && NonNegativeBig(p[key])
  }

  predicate TextAt(r: Record, key: Key) {
    key in r && r[key].Str?
  }

  lemma NestedIndex(place: nat)
    requires 4 <= place < 16
    ensures BIGINT_PATHS[place] == Path(NestedPathOf(place).0, Ok(NestedPathOf(place).1))
  {
    PathsPlaced(place);
    NestedPlaced(BIGINT_PATHS[place]);
  }

  lemma PlainIsUint(v: Value)
    requires NonNegativeBig(v) || IsPlainUint(v)
    ensures IsUint(v)
  {
    if v.Num? {
      var m := v.x.Floor;
      assert 0 <= m <= 9007199254740991 && IsWhole(v.x, m);
    }
  }

  lemma NestedDecoded(p: Record, place: nat)
    requires 4 <= place < 16 && BigintsTyped(p, BIGINT_PATHS) && NonNegative(p, BIGINT_PATHS)
    ensures var (head, leaf) := NestedPathOf(place); if place < 9 then BigIn(p, head, leaf) else UintIn(p, head, leaf)
  {
    var (head, leaf) := NestedPathOf(place);
    NestedIndex(place);
    assert |BIGINT_PATHS| == 16;
    assert HasPath(p, BIGINT_PATHS[place]) && !Negative(p, BIGINT_PATHS[place]);
    PlainIsUint(p[head].fields[leaf]);
  }

  lemma TopDecoded(p: Record)
    requires BigintsTyped(p, BIGINT_PATHS) && NonNegative(p, BIGINT_PATHS)
    ensures BigAt(p, OriginChainId) && BigAt(p, DestinationChainId) && BigAt(p, BidOutput) && BigAt(p, AcceptBy)
  {
    assert |BIGINT_PATHS| == 16;
    forall i | 0 <= i < 4 ensures BigAt(p, BIGINT_PATHS[i].head) {
      PathsPlaced(i);
      assert HasPath(p, BIGINT_PATHS[i]) && !Negative(p, BIGINT_PATHS[i]);
    }
    assert BIGINT_PATHS[0].head == OriginChainId && BIGINT_PATHS[1].head == DestinationChainId;
    assert BIGINT_PATHS[2].head == BidOutput && BIGINT_PATHS[3].head == AcceptBy;
  }

  /** The ids, the nine bigints and the seven uints of a prepared fill, by name. */
  ghost predicate PreparedTypes(p: Record) {
    && TextAt(p, OrderId) && TextAt(p, FillId)
    && BigAt(p, OriginChainId) && BigAt(p, DestinationChainId) && BigAt(p, BidOutput) && BigAt(p, AcceptBy)
    && BigIn(p, FillAuthDomain, ChainId) && BigIn(p, BondDomain, ChainId)
    && BigIn(p, Lock, Amount) && BigIn(p, Lock, ToChainId) && BigIn(p, Lock, RefundableAt)
    && UintIn(p, Terms, FromChainId) && UintIn(p, Terms, FromAmount) && UintIn(p, Terms, ToChainId)
    && UintIn(p, Terms, FillDeadline) && UintIn(p, Opening, ToAmount)
    && UintIn(p, FillAuth, Amount) && UintIn(p, FillAuth, Deadline)
  }

  /** The texts of an entry, a known phase, and an announcement without the withdrawn commitment. */
  predicate EntryTypes(e: Record) {
    && TextAt(e, AuctionId) && TextAt(e, Output)
    && Phase in e && (e[Phase] == Str("accepting") || e[Phase] == Str("accepted") || e[Phase] == Str("filled"))
    && Announcement in e && (e[Announcement].Obj? ==> RecipientCommitment !in e[Announcement].fields)
    && Prepared in e && e[Prepared].Obj?
  }

  lemma PreparedTyped(p: Record)
    requires BigintsTyped(p, BIGINT_PATHS) && NonNegative(p, BIGINT_PATHS) && HasStr(p, OrderId) && HasStr(p, FillId)
    ensures PreparedTypes(p)
  {
    TopDecoded(p);
    forall place | 4 <= place < 16
      ensures var (head, leaf) := NestedPathOf(place); if place < 9 then BigIn(p, head, leaf) else UintIn(p, head, leaf)
    {
      NestedDecoded(p, place);
    }
    NamedPlaces(p);
  }

  lemma EntryTyped(v: Value)
    requires Decode(v).Ok? && Headed(Obj(Decode(v).value))
    ensures EntryTypes(Decode(v).value)
  {
    PhasesNamed(Decode(v).value[Phase]);
    if Decode(v).value[Announcement].Obj? {
      CommitmentGone(v);
    }
  }

  /** Whatever a file holds, an entry that decodes has these types, field by field. */
  lemma DecodedHasTypes(v: Value)
    requires IsJson(v) && Decode(v).Ok?
    ensures EntryTypes(Decode(v).value) && PreparedTypes(Decode(v).value[Prepared].fields)
  {
    DecodedStorable(v);
    EntryTyped(v);
    PreparedTyped(Decode(v).value[Prepared].fields);
  }

  lemma NamedPlaces(p: Record)
    requires forall place :: 4 <= place < 16 ==>
               var (head, leaf) := NestedPathOf(place); if place < 9 then BigIn(p, head, leaf) else UintIn(p, head, leaf)
    ensures BigIn(p, FillAuthDomain, ChainId) && BigIn(p, BondDomain, ChainId)
    ensures BigIn(p, Lock, Amount) && BigIn(p, Lock, ToChainId) && BigIn(p, Lock, RefundableAt)
    ensures UintIn(p, Terms, FromChainId) && UintIn(p, Terms, FromAmount) && UintIn(p, Terms, ToChainId)
    ensures UintIn(p, Terms, FillDeadline) && UintIn(p, Opening, ToAmount)
    ensures UintIn(p, FillAuth, Amount) && UintIn(p, FillAuth, Deadline)
  {
    assert NestedPathOf(4) == (FillAuthDomain, ChainId) && NestedPathOf(5) == (BondDomain, ChainId);
    assert NestedPathOf(6) == (Lock, Amount) && NestedPathOf(7) == (Lock, ToChainId) && NestedPathOf(8) == (Lock, RefundableAt);
    assert NestedPathOf(9) == (Terms, FromChainId) && NestedPathOf(10) == (Terms, FromAmount) && NestedPathOf(11) == (Terms, ToChainId);
    assert NestedPathOf(12) == (Terms, FillDeadline) && NestedPathOf(13) == (Opening, ToAmount);
    assert NestedPathOf(14) == (FillAuth, Amount) && NestedPathOf(15) == (FillAuth, Deadline);
  }

  lemma PhasesNamed(v: Value)
    ensures v in PHASES ==> v == Str("accepting") || v == Str("accepted") || v == Str("filled")
  {
  }

  lemma CommitmentGone(v: Value)
    requires Decode(v).Ok? && Announcement in Decode(v).value && Decode(v).value[Announcement].Obj?
    ensures RecipientCommitment !in Decode(v).value[Announcement].fields
  {
  }
}
