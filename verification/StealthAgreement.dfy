/**
 ERC-5564 over an abstract group: what a sender derives from a meta-address and what its owner
 derives from the announcement. The curve, the hash and the address of a key are parameters.
 */
module StealthAgreement {
  import opened Arithmetic
  import opened ScalarMultiples
  import opened Wrappers

  type Byte = x: int | 0 <= x < 256

  /** `generator` has order `order`; `hash` is keccak256 of a compressed point. */
  datatype Suite<!P(!new)> = Suite(op: (P, P) -> P, zero: P, carrier: P -> bool, generator: P, order: nat,
                                   hash: P -> seq<Byte>, address: P -> string)

  datatype Settlement<P> = Settlement(address: string, ephemeralPub: P, viewTag: Byte)

  function BigEndian(bytes: seq<Byte>): nat {
    if bytes == [] then 0 else BigEndian(bytes[..|bytes| - 1]) * 256 + bytes[|bytes| - 1]
  }

  method BytesToBigInt(bytes: seq<Byte>) returns (result: nat)
    ensures result == BigEndian(bytes)
  {
    result := 0;
    for k := 0 to |bytes|
      invariant result == BigEndian(bytes[..k])
    {
      assert bytes[..k + 1][..k] == bytes[..k];
      result := result * 256 + bytes[k];
    }
    assert bytes[..|bytes|] == bytes;
  }

  /** The first byte is the most significant. */
  lemma {:induction false} BigEndianHead(first: Byte, rest: seq<Byte>)
    ensures BigEndian([first] + rest) == first * Power256(|rest|) + BigEndian(rest)
  {
    var bytes := [first] + rest;
    if rest == [] {
      assert bytes[..0] == [] && bytes == [first];
    } else {
      var n := |rest| - 1;
      BigEndianHead(first, rest[..n]);
      assert bytes[..|bytes| - 1] == [first] + rest[..n];
    }
  }

  function Power256(n: nat): nat {
    if n == 0 then 1 else Power256(n - 1) * 256
  }

  /** Bytes of one length are one number only if they are the same. */
  lemma {:induction false} BigEndianInjective(a: seq<Byte>, b: seq<Byte>)
    requires |a| == |b| && BigEndian(a) == BigEndian(b)
    ensures a == b
  {
    if a != [] {
      var n := |a| - 1;
      BigEndianInjective(a[..n], b[..n]);
      assert a == a[..n] + [a[n]] && b == b[..n] + [b[n]];
    }
  }

  ghost predicate Lawful<P(!new)>(u: Suite<P>) {
    && Monoid(u.op, u.zero, u.carrier) && u.carrier(u.generator) && u.order > 1
    && (forall k: nat :: Times(u.op, u.zero, k, u.generator) == u.zero <==> k % u.order == 0)
    && (forall p :: |u.hash(p)| == 32)
  }

  ghost function PublicKey<P(!new)>(u: Suite<P>, scalar: nat): P {
    Times(u.op, u.zero, scalar, u.generator)
  }

  /** `multiply` takes a scalar reduced into [1, n-1] and throws on zero. */
  ghost function SharedSecretHash<P(!new)>(u: Suite<P>, pub: P, priv: nat): Result<seq<Byte>>
    requires u.order > 0
  {
    if priv % u.order == 0 then Err else Ok(u.hash(Times(u.op, u.zero, priv % u.order, pub)))
  }

  /** Sender: the tweak is added to the spending key; a zero tweak or a sum at infinity throws. */
  ghost function ComputeStealthAddress<P(!new)>(u: Suite<P>, spendingPub: P, viewingPub: P, ephemeral: nat)
    : Result<Settlement<P>>
    requires Lawful(u)
  {
    match SharedSecretHash(u, viewingPub, ephemeral)
    case Err => Err
    case Ok(h) =>
      var tweak := BigEndian(h) % u.order;
      var stealthPub := u.op(spendingPub, PublicKey(u, tweak));
      if tweak == 0 || stealthPub == u.zero then Err
      else Ok(Settlement(u.address(stealthPub), PublicKey(u, ephemeral % u.order), h[0]))
  }

  predicate ValidKey(scalar: nat, order: nat) {
    0 < scalar < order
  }

  ghost function DeriveStealthPrivateKey<P(!new)>(u: Suite<P>, spending: nat, viewing: nat, ephemeralPub: P): Result<nat>
    requires u.order > 0
  {
    if !ValidKey(spending, u.order) || !ValidKey(viewing, u.order) then Err else
      match SharedSecretHash(u, ephemeralPub, viewing)
      case Err => Err
      case Ok(h) => Ok((spending + BigEndian(h)) % u.order)
  }

  /** Receiver: the address of the derived key, which must itself be a valid private key. */
  ghost function DeriveStealthOwner<P(!new)>(u: Suite<P>, spending: nat, viewing: nat, ephemeralPub: P): Result<(nat, string)>
    requires u.order > 0
  {
    match DeriveStealthPrivateKey(u, spending, viewing, ephemeralPub)
    case Err => Err
    case Ok(key) => if ValidKey(key, u.order) then Ok((key, u.address(PublicKey(u, key)))) else Err
  }

  ghost function CheckViewTag<P(!new)>(u: Suite<P>, ephemeralPub: P, viewTag: Byte, viewing: nat): Result<bool>
    requires u.order > 0
  {
    match SharedSecretHash(u, ephemeralPub, viewing)
    case Err => Err
    case Ok(h) => Ok(h != [] && h[0] == viewTag)
  }

  /** Both sides of the ECDH reach one point. */
  lemma SharedPoint<P(!new)>(u: Suite<P>, viewing: nat, ephemeral: nat)
    requires Lawful(u)
    ensures Times(u.op, u.zero, ephemeral % u.order, PublicKey(u, viewing)) ==
            Times(u.op, u.zero, viewing, PublicKey(u, ephemeral % u.order))
  {
    var r := ephemeral % u.order;
    TimesProduct(u.op, u.zero, u.carrier, r, viewing, u.generator);
    TimesProduct(u.op, u.zero, u.carrier, viewing, r, u.generator);
    assert r * viewing == viewing * r;
  }

  /** The tweaked public key is the public key of the tweaked private key. */
  lemma TweakedKey<P(!new)>(u: Suite<P>, spending: nat, h: nat)
    requires Lawful(u)
    ensures u.op(PublicKey(u, spending), PublicKey(u, h % u.order)) == PublicKey(u, (spending + h) % u.order)
  {
    var n := u.order;
    RemainderInRange(h, n);
    RemainderInRange(spending + h, n);
    RemainderOfSum(spending, h, n);
    TimesSum(u.op, u.zero, u.carrier, spending, h % n, u.generator);
    QuotientIs(n, n, 1, 0);
    TimesCongruent(u.op, u.zero, u.carrier, n, spending + h % n, (spending + h) % n, u.generator);
  }

  /**
   For every spending and viewing key and every ephemeral scalar: the sender succeeds exactly when
   the scalar and the hash are nonzero mod n and the tweaked key is not zero, and then the owner
   derives the private key of exactly that stealth key, owns its address, and the view tag matches.
   */
  lemma SenderAndReceiverAgree<P(!new)>(u: Suite<P>, spending: nat, viewing: nat, ephemeral: nat)
    requires Lawful(u) && 0 < spending < u.order && 0 < viewing < u.order
    ensures var sent := ComputeStealthAddress(u, PublicKey(u, spending), PublicKey(u, viewing), ephemeral);
            var ephemeralPub := PublicKey(u, ephemeral % u.order);
            var h := BigEndian(u.hash(Times(u.op, u.zero, viewing, ephemeralPub)));
            && (sent.Ok? <==> ephemeral % u.order != 0 && h % u.order != 0 && (spending + h) % u.order != 0)
            && (sent.Ok? ==>
                  && sent.value.ephemeralPub == ephemeralPub
                  && DeriveStealthOwner(u, spending, viewing, ephemeralPub) == Ok(((spending + h) % u.order, sent.value.address))
                  && PublicKey(u, (spending + h) % u.order) == u.op(PublicKey(u, spending), PublicKey(u, h % u.order))
                  && CheckViewTag(u, ephemeralPub, sent.value.viewTag, viewing) == Ok(true))
  {
    var ephemeralPub := PublicKey(u, ephemeral % u.order);
    var h := BigEndian(u.hash(Times(u.op, u.zero, viewing, ephemeralPub)));
    SmallRemainder(viewing, u.order);
    RemainderInRange(spending + h, u.order);
    SharedPoint(u, viewing, ephemeral);
    TweakedKey(u, spending, h);
    KeyIsZero(u, (spending + h) % u.order);
  }

  lemma KeyIsZero<P(!new)>(u: Suite<P>, key: nat)
    requires Lawful(u) && key < u.order
    ensures PublicKey(u, key) == u.zero <==> key == 0
  {
    SmallRemainder(key, u.order);
  }

  /** A hash that is zero mod n stops the sender only: the owner would still derive its own spending key. */
  lemma ZeroTweakStopsSenderOnly<P(!new)>(u: Suite<P>, spending: nat, viewing: nat, ephemeral: nat)
    requires Lawful(u) && 0 < spending < u.order && 0 < viewing < u.order && ephemeral % u.order != 0
    requires BigEndian(u.hash(Times(u.op, u.zero, viewing, PublicKey(u, ephemeral % u.order)))) % u.order == 0
    ensures ComputeStealthAddress(u, PublicKey(u, spending), PublicKey(u, viewing), ephemeral) == Err
    ensures DeriveStealthOwner(u, spending, viewing, PublicKey(u, ephemeral % u.order)) ==
            Ok((spending, u.address(PublicKey(u, spending))))
  {
    var h := BigEndian(u.hash(Times(u.op, u.zero, viewing, PublicKey(u, ephemeral % u.order))));
    SmallRemainder(viewing, u.order);
    SmallRemainder(spending, u.order);
    RemainderOfSum(spending, h, u.order);
    SharedPoint(u, viewing, ephemeral);
  }

  /**
   For any announcement, from whoever: an owner is derived exactly when both private keys are in range
   and their sum with the hash is not zero, and it then holds the key of the address it names; and a
   view tag is looked at exactly when the viewing key is not zero mod n, and matches one tag only.
   */
  lemma OwnerExactly<P(!new)>(u: Suite<P>, spending: nat, viewing: nat, ephemeralPub: P, tag: Byte)
    requires Lawful(u)
    ensures var owner := DeriveStealthOwner(u, spending, viewing, ephemeralPub);
            var h := u.hash(Times(u.op, u.zero, viewing % u.order, ephemeralPub));
            var key := (spending + BigEndian(h)) % u.order;
            && (owner.Ok? <==> 0 < spending < u.order && 0 < viewing < u.order && key != 0)
            && (owner.Ok? ==> owner.value == (key, u.address(PublicKey(u, key))) && PublicKey(u, key) != u.zero)
            && CheckViewTag(u, ephemeralPub, tag, viewing) == (if viewing % u.order == 0 then Err else Ok(tag == h[0]))
  {
    var key := (spending + BigEndian(u.hash(Times(u.op, u.zero, viewing % u.order, ephemeralPub)))) % u.order;
    RemainderInRange(spending + BigEndian(u.hash(Times(u.op, u.zero, viewing % u.order, ephemeralPub))), u.order);
    if 0 < viewing < u.order {
      SmallRemainder(viewing, u.order);
    }
    KeyIsZero(u, key);
  }
}
