/**
 Grumpkin (y^2 = x^3 - 17 over the BN254 scalar field) as the signer uses it: the
 extended-Euclid inverse, double-and-add, the affine form and the Schnorr verifier.

 The code is stated for any odd modulus and group order, so that no proof depends on the
 digits of the two constants; `GRUMPKIN` is the instance the signer runs.
 */
module Grumpkin {
  import opened Arithmetic
  import opened Numerals
  import opened Residues
  import opened JacobianCurve
  import opened ScalarMultiples
  import opened Text

  datatype Parameters = Parameters(modulus: int, order: int, generator: Point)

  type Curve = c: Parameters | 2 < c.modulus <= c.order && c.generator.At? witness Parameters(3, 3, At(0, 0))

  const GRUMPKIN: Curve := Parameters(
    0x30644e72e131a029b85045b68181585d2833e84879b9709143e1f593f0000001,
    0x30644e72e131a029b85045b68181585d97816a916871ca8d3c208c16d87cfd47,
    At(1, 0x0000000000000002cf135e7506a45d632d270d45f1181294833fc48d823f272c))

  const SCHNORR_CHALLENGE_DST: int := 0x024c76938ed06b8ec1d9094b1013d190baa4011372f0604643bda812a63b832e

  /** `m`: reduction into [0, modulus). */
  function Mod(c: Curve): Residue {
    (a: int) => a % c.modulus
  }

  /** Remainder of a division that truncates toward zero. */
  function TruncRem(a: int, n: int): int
    requires n > 0
  {
    if a >= 0 then a % n else -((-a) % n)
  }

  // The hypotheses: what is taken as known about the modulus and the group law.

  ghost predicate Divides(d: int, n: int) {
    exists k :: n == k * d
  }

  ghost predicate PrimeModulus(c: Curve) {
    forall d :: d > 0 && Divides(d, c.modulus) ==> d == 1 || d == c.modulus
  }

  ghost predicate Carrier(c: Curve, a: Point) {
    OnCurve(Mod(c), -17, a)
  }

  ghost function On(c: Curve): Point -> bool {
    (a: Point) => Carrier(c, a)
  }

  ghost function Plus(c: Curve, a: Point, b: Point): Point {
    AffineAdd(Mod(c), Inv(c), a, b)
  }

  ghost function Law(c: Curve): (Point, Point) -> Point {
    (a: Point, b: Point) => Plus(c, a, b)
  }

  ghost predicate AssociativeLaw(c: Curve) {
    Associative(Law(c), On(c))
  }

  /** k-fold addition of a point. */
  ghost function Multiple(c: Curve, k: nat, p: Point): Point {
    Times(Law(c), Infinity, k, p)
  }

  lemma SameResidue(c: Curve, a: int, b: int, k: int)
    requires a == b + k * c.modulus
    ensures Mod(c)(a) == Mod(c)(b)
  {
    var n := c.modulus;
    var q, r := b / n, b % n;
    assert b == q * n + r;
    assert a == (q + k) * n + r by {
      assert (q + k) * n == q * n + k * n;
    }
    QuotientIs(a, n, q + k, r);
  }

  /** The multiple of the modulus two equal residues differ by. */
  lemma Difference(c: Curve, a: int, b: int) returns (k: int)
    requires Mod(c)(a) == Mod(c)(b)
    ensures a == b + k * c.modulus
  {
    var n := c.modulus;
    k := a / n - b / n;
    assert a == a / n * n + a % n && b == b / n * n + b % n;
    assert k * n == a / n * n - b / n * n;
  }

  lemma SumResidue(c: Curve, a: int, b: int, d: int, e: int)
    requires Mod(c)(a) == Mod(c)(b) && Mod(c)(d) == Mod(c)(e)
    ensures Mod(c)(a + d) == Mod(c)(b + e) && Mod(c)(a - d) == Mod(c)(b - e)
  {
    var k := Difference(c, a, b);
    var l := Difference(c, d, e);
    assert (k + l) * c.modulus == k * c.modulus + l * c.modulus;
    assert (k - l) * c.modulus == k * c.modulus - l * c.modulus;
    SameResidue(c, a + d, b + e, k + l);
    SameResidue(c, a - d, b - e, k - l);
  }

  lemma ProductResidue(c: Curve, a: int, b: int, d: int, e: int)
    requires Mod(c)(a) == Mod(c)(b) && Mod(c)(d) == Mod(c)(e)
    ensures Mod(c)(a * d) == Mod(c)(b * e)
  {
    var k := Difference(c, a, b);
    var l := Difference(c, d, e);
    ProductDifference(a, b, d, e, k, l, c.modulus);
    SameResidue(c, a * d, b * e, k * d + b * l);
  }

  lemma ProductDifference(a: int, b: int, d: int, e: int, k: int, l: int, n: int)
    requires a == b + k * n && d == e + l * n
    ensures a * d == b * e + (k * d + b * l) * n
  {
    assert a * d == b * d + k * n * d;
    assert b * d == b * e + b * (l * n);
    assert (k * d + b * l) * n == k * n * d + b * (l * n);
  }

  lemma MIsRingResidue(c: Curve)
    ensures RingResidue(Mod(c))
  {
    var m := Mod(c);
    forall a, b, d, e ensures SumLaw(m, a, b, d, e) {
      if m(a) == m(b) && m(d) == m(e) {
        SumResidue(c, a, b, d, e);
      }
    }
    forall a, b, d, e ensures ProductLaw(m, a, b, d, e) {
      if m(a) == m(b) && m(d) == m(e) {
        ProductResidue(c, a, b, d, e);
      }
    }
    forall a ensures ReducedLaw(m, a) {
      RemainderInRange(a, c.modulus);
    }
  }

  // The inverse.

  /** The loop of the extended Euclid algorithm: final cofactor and final remainder. */
  function Euclid(t: int, newT: int, r: int, newR: int): (int, int)
    requires r >= 0 && newR >= 0
    decreases newR
  {
    if newR == 0 then (t, r) else
      var q := r / newR;
      assert r - q * newR == r % newR;
      Euclid(newT, t - q * newT, newR, r - q * newR)
  }

  function Inverse(c: Curve, a: int): int {
    Mod(c)(Euclid(0, 1, c.modulus, Mod(c)(a)).0)
  }

  function Inv(c: Curve): int -> int {
    (a: int) => Inverse(c, a)
  }

  /** Every step keeps t * a = r modulo m, so the result does too. */
  lemma {:induction false} EuclidCofactor(m: Residue, a: int, t: int, newT: int, r: int, newR: int)
    requires RingResidue(m) && r >= 0 && newR >= 0
    requires m(t * a) == m(r) && m(newT * a) == m(newR)
    ensures m(Euclid(t, newT, r, newR).0 * a) == m(Euclid(t, newT, r, newR).1)
    decreases newR
  {
    if newR != 0 {
      var q := r / newR;
      assert r - q * newR == r % newR;
      Mul(m, q, q, newT * a, newR);
      Sub(m, t * a, r, q * (newT * a), q * newR);
      assert (t - q * newT) * a == t * a - q * (newT * a);
      EuclidCofactor(m, a, newT, t - q * newT, newR, r - q * newR);
    }
  }

  /** The final remainder divides both starting remainders. */
  lemma {:induction false} EuclidDivides(t: int, newT: int, r: int, newR: int)
    requires r >= 0 && newR >= 0 && (r > 0 || newR > 0)
    ensures var g := Euclid(t, newT, r, newR).1; g > 0 && Divides(g, r) && Divides(g, newR)
    decreases newR
  {
    if newR == 0 {
      assert r == 1 * r && newR == 0 * r;
    } else {
      var q := r / newR;
      assert r - q * newR == r % newR;
      EuclidDivides(newT, t - q * newT, newR, r - q * newR);
      var g := Euclid(t, newT, r, newR).1;
      var k :| newR == k * g;
      var l :| r - q * newR == l * g;
      assert q * (k * g) == q * k * g;
      assert r == (q * k + l) * g;
    }
  }

  /** Over a prime modulus, `Inverse` inverts every nonzero residue. */
  lemma InverseIsInverse(c: Curve, a: int)
    requires PrimeModulus(c) && Mod(c)(a) != 0
    ensures Mod(c)(a * Inverse(c, a)) == 1
  {
    MIsRingResidue(c);
    var e := Euclid(0, 1, c.modulus, Mod(c)(a));
    SameResidue(c, c.modulus, 0, 1);
    SmallRemainder(0, c.modulus);
    SmallRemainder(1, c.modulus);
    RemainderInRange(a, c.modulus);
    assert 0 * Mod(c)(a) == 0 && 1 * Mod(c)(a) == Mod(c)(a);
    EuclidCofactor(Mod(c), Mod(c)(a), 0, 1, c.modulus, Mod(c)(a));
    EuclidDivides(0, 1, c.modulus, Mod(c)(a));
    var k :| Mod(c)(a) == k * e.1;
    assert e.1 == 1 by {
      if e.1 == c.modulus {
        MultipleBelow(c, Mod(c)(a), k);
      }
    }
    Reduced(Mod(c), a);
    Reduced(Mod(c), e.0);
    Mul(Mod(c), Mod(c)(a), a, e.0, Inverse(c, a));
    assert Mod(c)(a) * e.0 == e.0 * Mod(c)(a);
  }

  lemma MultipleBelow(c: Curve, a: int, k: int)
    requires a == k * c.modulus && 0 <= a < c.modulus
    ensures a == 0
  {
    QuotientIs(a, c.modulus, k, 0);
    SmallRemainder(a, c.modulus);
  }

  lemma GrumpkinField(c: Curve)
    requires PrimeModulus(c)
    ensures OddField(Mod(c), Inv(c))
  {
    MIsRingResidue(c);
    SmallRemainder(0, c.modulus);
    SmallRemainder(1, c.modulus);
    SmallRemainder(2, c.modulus);
    forall a ensures InverseLaw(Mod(c), Inv(c), a) {
      if Mod(c)(a) != Mod(c)(0) {
        InverseIsInverse(c, a);
      }
    }
  }

  /** The loop that inverts: zero for zero, the inverse for every other residue. */
  method Invert(c: Curve, a: int) returns (inverse: int)
    ensures inverse == Inverse(c, a)
    ensures Mod(c)(a) == 0 ==> inverse == 0
    ensures PrimeModulus(c) && Mod(c)(a) != 0 ==> Mod(c)(a * inverse) == 1
  {
    var t, newT, r, newR := 0, 1, c.modulus, Mod(c)(a);
    while newR != 0
      invariant r >= 0 && newR >= 0
      invariant Euclid(t, newT, r, newR) == Euclid(0, 1, c.modulus, Mod(c)(a))
      decreases newR
    {
      var q := r / newR;
      assert r - q * newR == r % newR;
      t, newT := newT, t - q * newT;
      r, newR := newR, r - q * newR;
    }
    inverse := Mod(c)(t);
    if PrimeModulus(c) && Mod(c)(a) != 0 {
      InverseIsInverse(c, a);
    }
  }

  method Affine(c: Curve, p: Jacobian) returns (point: Point)
    ensures point == AffineOf(Mod(c), Inv(c), p)
  {
    if p.Z == 0 {
      return Infinity;
    }
    var zi := Invert(c, p.Z);
    var zi2 := Mod(c)(zi * zi);
    point := At(Mod(c)(p.X * zi2), Mod(c)(p.Y * zi2 * zi));
  }

  predicate IsGrumpkinPoint(c: Curve, x: int, y: int) {
    0 <= x < c.modulus && 0 <= y < c.modulus && Mod(c)(y * y) == Mod(c)(x * x * x - 17)
  }

  predicate GeneratorOnCurve(c: Curve) {
    IsGrumpkinPoint(c, c.generator.x, c.generator.y)
  }

  // Double-and-add.

  function MulLoop(c: Curve, output: Jacobian, acc: Jacobian, e: int): Jacobian
    decreases e
  {
    if e <= 0 then output
    else MulLoop(c, if e % 2 == 1 then AddJ(Mod(c), output, acc) else output, Double(Mod(c), acc), e / 2)
  }

  function MulJ(c: Curve, k: int, x: int, y: int): Jacobian {
    MulLoop(c, Neutral, Jacobian(x, y, 1), TruncRem(k, c.order))
  }

  method MultiplyJ(c: Curve, k: int, x: int, y: int) returns (output: Jacobian)
    ensures output == MulJ(c, k, x, y)
    ensures PrimeModulus(c) && AssociativeLaw(c) && IsGrumpkinPoint(c, x, y) ==>
              Represents(Mod(c), output, Multiple(c, Scalar(c, k), At(x, y)))
  {
    output := Neutral;
    var acc := Jacobian(x, y, 1);
    var e := TruncRem(k, c.order);
    while e > 0
      invariant MulLoop(c, output, acc, e) == MulJ(c, k, x, y)
    {
      if e % 2 == 1 {
        output := AddJ(Mod(c), output, acc);
      }
      acc := Double(Mod(c), acc);
      e := e / 2;
    }
    if PrimeModulus(c) && AssociativeLaw(c) && IsGrumpkinPoint(c, x, y) {
      MulJRepresents(c, k, x, y, Scalar(c, k));
    }
  }

  lemma GrumpkinMonoid(c: Curve)
    requires PrimeModulus(c) && AssociativeLaw(c)
    ensures Monoid(Law(c), Infinity, On(c))
  {
    GrumpkinField(c);
    forall a, b | Carrier(c, a) && Carrier(c, b) ensures Carrier(c, Plus(c, a, b)) {
      AffineAddOnCurve(Mod(c), Inv(c), -17, a, b);
    }
  }

  /** Each pass keeps output + e * acc. */
  lemma {:induction false} MulLoopRepresents(c: Curve, output: Jacobian, acc: Jacobian, e: int, o: Point, a: Point)
    requires PrimeModulus(c) && AssociativeLaw(c) && e >= 0
    requires Represents(Mod(c), output, o) && Represents(Mod(c), acc, a) && Carrier(c, o) && Carrier(c, a)
    ensures Represents(Mod(c), MulLoop(c, output, acc, e), Plus(c, o, Multiple(c, e, a)))
    decreases e
  {
    GrumpkinField(c);
    if e > 0 {
      var o' := if e % 2 == 1 then Plus(c, o, a) else o;
      AddRepresents(Mod(c), Inv(c), -17, output, acc, o, a);
      AffineAddOnCurve(Mod(c), Inv(c), -17, o, a);
      DoubleRepresents(Mod(c), Inv(c), acc, a);
      AffineAddOnCurve(Mod(c), Inv(c), -17, a, a);
      MulLoopRepresents(c, if e % 2 == 1 then AddJ(Mod(c), output, acc) else output, Double(Mod(c), acc), e / 2, o', Plus(c, a, a));
      GrumpkinMonoid(c);
      TimesHalved(Law(c), Infinity, On(c), o, a, e);
    }
  }

  /** A point of the curve, its Jacobian form, and the neutral element. */
  lemma PointStarts(c: Curve, x: int, y: int)
    requires IsGrumpkinPoint(c, x, y)
    ensures Carrier(c, At(x, y)) && Represents(Mod(c), Jacobian(x, y, 1), At(x, y)) && Represents(Mod(c), Neutral, Infinity)
  {
    SmallRemainder(x, c.modulus);
    SmallRemainder(y, c.modulus);
    SmallRemainder(0, c.modulus);
    SmallRemainder(1, c.modulus);
  }

  /** The scalar the loop multiplies by: a negative k leaves it unentered. */
  function Scalar(c: Curve, k: int): nat {
    if k >= 0 then k % c.order else 0
  }

  lemma StartRepresents(c: Curve, a: Point, k: int, n: nat)
    requires PrimeModulus(c) && AssociativeLaw(c) && a.At? && Carrier(c, a) && n == Scalar(c, k)
    requires Represents(Mod(c), Jacobian(a.x, a.y, 1), a) && Represents(Mod(c), Neutral, Infinity)
    ensures Represents(Mod(c), MulJ(c, k, a.x, a.y), Multiple(c, n, a)) && Carrier(c, Multiple(c, n, a))
  {
    if k >= 0 {
      MulLoopRepresents(c, Neutral, Jacobian(a.x, a.y, 1), n, Infinity, a);
    }
    MultipleOnCurve(c, n, a);
  }

  /** Double-and-add is (k mod q)-fold addition. */
  lemma MulJRepresents(c: Curve, k: int, x: int, y: int, n: nat)
    requires PrimeModulus(c) && AssociativeLaw(c) && IsGrumpkinPoint(c, x, y) && n == Scalar(c, k)
    ensures Represents(Mod(c), MulJ(c, k, x, y), Multiple(c, n, At(x, y))) && Carrier(c, Multiple(c, n, At(x, y)))
  {
    PointStarts(c, x, y);
    StartRepresents(c, At(x, y), k, n);
  }

  // Schnorr.

  /** The group equation a signature (s, e) of msg under P has to satisfy. */
  ghost predicate SchnorrEquation(c: Curve, hash: seq<int> -> int, x: int, y: int, msg: int, s: int, e: int)
    requires s >= 0 && e >= 0
  {
    var S := Plus(c, Multiple(c, s, c.generator), Multiple(c, e, At(x, y)));
    S.At? && hash([SCHNORR_CHALLENGE_DST, S.x, x, y, msg]) == e
  }

  /** What has to hold for the sums of points to mean anything: a field, a group and a generator in it. */
  ghost predicate Sound(c: Curve) {
    PrimeModulus(c) && AssociativeLaw(c) && GeneratorOnCurve(c)
  }

  /** s * G + e * P, through Jacobian coordinates and back. */
  method Recompute(c: Curve, x: int, y: int, s: int, e: int) returns (point: Point)
    ensures Sound(c) && IsGrumpkinPoint(c, x, y) && 0 <= s < c.order && 0 <= e < c.order ==>
              point == Plus(c, Multiple(c, s, c.generator), Multiple(c, e, At(x, y)))
  {
    var sG := MultiplyJ(c, s, c.generator.x, c.generator.y);
    var eP := MultiplyJ(c, e, x, y);
    point := Affine(c, AddJ(Mod(c), sG, eP));
    if Sound(c) && IsGrumpkinPoint(c, x, y) && 0 <= s < c.order && 0 <= e < c.order {
      VerifierPoint(c, c.generator.x, c.generator.y, x, y, s, e);
    }
  }

  /** A signature (s, e) in range, of a key on the curve, that satisfies the group equation. */
  ghost predicate Accepts(c: Curve, hash: seq<int> -> int, x: nat, y: nat, msg: nat, s: nat, e: nat) {
    && 0 < s < c.order && 0 < e < c.modulus && msg < c.modulus
    && IsGrumpkinPoint(c, x, y) && SchnorrEquation(c, hash, x, y, msg, s, e)
  }

  predicate AllHex(s: string) {
    s != [] && forall i :: 0 <= i < |s| ==> IsHexDigit(s[i])
  }

  /** `0x` and that many hex digits, of either case. */
  predicate HexOf(s: string, digits: nat) {
    |s| == digits + 2 && s[0] == '0' && s[1] == 'x' && AllHex(s[2..])
  }

  /** `BigInt` of `0x` and these digits. */
  function HexNumber(digits: string): nat
    requires AllHex(digits)
  {
    HexIsNumeral(digits);
    Parse(Lower(digits), 16)
  }

  lemma HexIsNumeral(digits: string)
    requires AllHex(digits)
    ensures IsNumeral(Lower(digits), 16)
  {
  }

  /** A number in that many digits: leading zeros kept, letters of either case. */
  predicate Spells(digits: string, n: nat, width: nat) {
    |digits| == width && |Print(n, 16)| <= width && Lower(digits) == Zeros(width - |Print(n, 16)|) + Print(n, 16)
  }

  lemma LowerHex(digits: string)
    requires forall i :: 0 <= i < |digits| ==> DigitValue(Lower(digits)[i]) < 16
    ensures forall i :: 0 <= i < |digits| ==> IsHexDigit(digits[i])
  {
    forall i | 0 <= i < |digits| ensures IsHexDigit(digits[i]) {
      assert Lower(digits)[i] == LowerChar(digits[i]) && DigitValue(Lower(digits)[i]) < 16;
    }
  }

  /** Whatever its spelling, the number read is the number written. */
  lemma SpelledIsRead(digits: string, n: nat, width: nat)
    requires Spells(digits, n, width)
    ensures AllHex(digits) && HexNumber(digits) == n
  {
    var shown := Print(n, 16);
    ParsePadded(width - |shown|, shown, 16);
    LowerHex(digits);
    ParsePrint(n, 16);
  }

  /** The four strings the verifier takes, spelling a key, a message and a signature it accepts. */
  ghost predicate AcceptsText(c: Curve, hash: seq<int> -> int, keyX: string, keyY: string, messageField: string, signature: string) {
    && HexOf(signature, 128) && HexOf(messageField, 64) && HexOf(keyX, 64) && HexOf(keyY, 64)
    && AllHex(signature[2..66]) && AllHex(signature[66..])
    && Accepts(c, hash, HexNumber(keyX[2..]), HexNumber(keyY[2..]), HexNumber(messageField[2..]),
               HexNumber(signature[2..66]), HexNumber(signature[66..]))
  }

  /** Verifies s || e, 64 digits each, over the field value `messageField`. */
  method VerifyRecipientSchnorr(c: Curve, hash: seq<int> -> int, keyX: string, keyY: string, messageField: string,
                                signature: string)
    returns (accepted: bool)
    ensures Sound(c) ==> (accepted <==> AcceptsText(c, hash, keyX, keyY, messageField, signature))
  {
    if !HexOf(signature, 128) || !HexOf(messageField, 64) || !HexOf(keyX, 64) || !HexOf(keyY, 64) {
      return false;
    }
    assert AllHex(signature[2..66]) && AllHex(signature[66..]) by {
      assert signature[2..66] == signature[2..][..64] && signature[66..] == signature[2..][64..];
    }
    accepted := VerifyNumbers(c, hash, HexNumber(keyX[2..]), HexNumber(keyY[2..]), HexNumber(messageField[2..]),
                              HexNumber(signature[2..66]), HexNumber(signature[66..]));
  }

  method VerifyNumbers(c: Curve, hash: seq<int> -> int, x: nat, y: nat, msg: nat, s: nat, e: nat)
    returns (accepted: bool)
    ensures Sound(c) ==> (accepted <==> Accepts(c, hash, x, y, msg, s, e))
  {
    if s == 0 || e == 0 || s >= c.order || e >= c.modulus || msg >= c.modulus {
      return false;
    }
    if !IsGrumpkinPoint(c, x, y) {
      return false;
    }
    var point := Recompute(c, x, y, s, e);
    if point.Infinity? {
      return false;
    }
    accepted := hash([SCHNORR_CHALLENGE_DST, point.x, x, y, msg]) == e;
  }

  /** The signer's constants: the generator is a point of the curve. */
  lemma GrumpkinGenerator()
    ensures GeneratorOnCurve(GRUMPKIN)
  {
  }

  /** The point the verifier recomputes is s * G + e * P. */
  lemma VerifierPoint(c: Curve, gx: int, gy: int, x: int, y: int, s: int, e: int)
    requires PrimeModulus(c) && AssociativeLaw(c) && IsGrumpkinPoint(c, x, y) && IsGrumpkinPoint(c, gx, gy)
    requires 0 <= s < c.order && 0 <= e < c.order
    ensures AffineOf(Mod(c), Inv(c), AddJ(Mod(c), MulJ(c, s, gx, gy), MulJ(c, e, x, y)))
            == Plus(c, Multiple(c, s, At(gx, gy)), Multiple(c, e, At(x, y)))
  {
    SmallRemainder(s, c.order);
    SmallRemainder(e, c.order);
    MulJRepresents(c, s, gx, gy, s);
    MulJRepresents(c, e, x, y, e);
    SumAffine(c, MulJ(c, s, gx, gy), MulJ(c, e, x, y), Multiple(c, s, At(gx, gy)), Multiple(c, e, At(x, y)));
  }

  lemma MultipleOnCurve(c: Curve, k: nat, p: Point)
    requires PrimeModulus(c) && AssociativeLaw(c) && Carrier(c, p)
    ensures Carrier(c, Multiple(c, k, p))
  {
    GrumpkinMonoid(c);
    TimesInCarrier(Law(c), Infinity, On(c), k, p);
  }

  /** `affine` of a Jacobian sum is the affine sum, whatever triples represent the operands. */
  lemma SumAffine(c: Curve, p: Jacobian, q: Jacobian, a: Point, b: Point)
    requires PrimeModulus(c) && Represents(Mod(c), p, a) && Represents(Mod(c), q, b) && Carrier(c, a) && Carrier(c, b)
    ensures AffineOf(Mod(c), Inv(c), AddJ(Mod(c), p, q)) == Plus(c, a, b)
  {
    GrumpkinField(c);
    AddRepresents(Mod(c), Inv(c), -17, p, q, a, b);
    var sum := AddJ(Mod(c), p, q);
    AffineOfRepresents(Mod(c), Inv(c), sum);
    RepresentsOne(Mod(c), Inv(c), sum, AffineOf(Mod(c), Inv(c), sum), Plus(c, a, b));
  }

  ghost predicate Canonical(c: Curve, p: Jacobian) {
    Mod(c)(p.X) == p.X && Mod(c)(p.Y) == p.Y && Mod(c)(p.Z) == p.Z
  }

  /** Through `affine`, Jacobian addition and doubling are the textbook law. */
  lemma AffineOfSum(c: Curve, p: Jacobian, q: Jacobian)
    requires PrimeModulus(c) && Canonical(c, p) && Canonical(c, q)
    requires Carrier(c, AffineOf(Mod(c), Inv(c), p)) && Carrier(c, AffineOf(Mod(c), Inv(c), q))
    ensures AffineOf(Mod(c), Inv(c), AddJ(Mod(c), p, q)) == Plus(c, AffineOf(Mod(c), Inv(c), p), AffineOf(Mod(c), Inv(c), q))
  {
    GrumpkinField(c);
    AffineOfRepresents(Mod(c), Inv(c), p);
    AffineOfRepresents(Mod(c), Inv(c), q);
    SumAffine(c, p, q, AffineOf(Mod(c), Inv(c), p), AffineOf(Mod(c), Inv(c), q));
  }

  lemma AffineOfDouble(c: Curve, p: Jacobian)
    requires PrimeModulus(c) && Canonical(c, p)
    ensures AffineOf(Mod(c), Inv(c), Double(Mod(c), p)) == Plus(c, AffineOf(Mod(c), Inv(c), p), AffineOf(Mod(c), Inv(c), p))
  {
    GrumpkinField(c);
    AffineOfRepresents(Mod(c), Inv(c), p);
    var a, d := AffineOf(Mod(c), Inv(c), p), Double(Mod(c), p);
    DoubleRepresents(Mod(c), Inv(c), p, a);
    AffineOfRepresents(Mod(c), Inv(c), d);
    RepresentsOne(Mod(c), Inv(c), d, AffineOf(Mod(c), Inv(c), d), Plus(c, a, a));
  }

  /**
   An honest signature is accepted: with secret key d, nonce k, challenge e over the commitment
   k * G, and s = k - e * d modulo the group order, neither s nor e zero.
   */
  lemma HonestSignatureAccepted(c: Curve, hash: seq<int> -> int, d: nat, k: nat, msg: nat, s: nat, e: nat)
    requires Sound(c) && Multiple(c, c.order, c.generator) == Infinity
    requires Multiple(c, d, c.generator).At? && Multiple(c, k, c.generator).At?
    requires var P := Multiple(c, d, c.generator);
             e == hash([SCHNORR_CHALLENGE_DST, Multiple(c, k, c.generator).x, P.x, P.y, msg])
    requires 0 < e < c.modulus && msg < c.modulus && 0 < s == (k - e * d) % c.order
    ensures var P := Multiple(c, d, c.generator); P.x >= 0 && P.y >= 0 && Accepts(c, hash, P.x, P.y, msg, s, e)
  {
    var P := Multiple(c, d, c.generator);
    PointStarts(c, c.generator.x, c.generator.y);
    HonestCommitment(c, c.generator, d, k, s, e);
    CarrierIsPoint(c, P);
    HonestEquation(c, hash, P, msg, s, e, Multiple(c, k, c.generator));
    RemainderInRange(k - e * d, c.order);
  }

  /** Any spelling of numbers the verifier accepts makes a text it accepts. */
  lemma SpelledAccepted(c: Curve, hash: seq<int> -> int, x: nat, y: nat, msg: nat, s: nat, e: nat,
                        keyX: string, keyY: string, messageField: string, sDigits: string, eDigits: string)
    requires Accepts(c, hash, x, y, msg, s, e)
    requires Spells(keyX, x, 64) && Spells(keyY, y, 64) && Spells(messageField, msg, 64)
    requires Spells(sDigits, s, 64) && Spells(eDigits, e, 64)
    ensures AcceptsText(c, hash, "0x" + keyX, "0x" + keyY, "0x" + messageField, "0x" + sDigits + eDigits)
  {
    SpelledIsRead(keyX, x, 64);
    SpelledIsRead(keyY, y, 64);
    SpelledIsRead(messageField, msg, 64);
    SpelledIsRead(sDigits, s, 64);
    SpelledIsRead(eDigits, e, 64);
    var signature := "0x" + sDigits + eDigits;
    assert ("0x" + keyX)[2..] == keyX && ("0x" + keyY)[2..] == keyY && ("0x" + messageField)[2..] == messageField;
    assert signature[2..66] == sDigits && signature[66..] == eDigits && signature[2..] == sDigits + eDigits;
  }

  /**
   End to end: the hex of the public key d * G, of a message and of the signature
   (s, e) = (k - e * d, hash over k * G), neither zero, makes the verifier return true.
   */
  lemma HonestTextAccepted(c: Curve, hash: seq<int> -> int, d: nat, k: nat, msg: nat, s: nat, e: nat,
                           keyX: string, keyY: string, messageField: string, sDigits: string, eDigits: string)
    requires Sound(c) && Multiple(c, c.order, c.generator) == Infinity
    requires var P, S := Multiple(c, d, c.generator), Multiple(c, k, c.generator);
             && P.At? && S.At? && P.x >= 0 && P.y >= 0 && Spells(keyX, P.x, 64) && Spells(keyY, P.y, 64)
             && e == hash([SCHNORR_CHALLENGE_DST, S.x, P.x, P.y, msg])
    requires 0 < e < c.modulus && msg < c.modulus && 0 < s == (k - e * d) % c.order
    requires Spells(messageField, msg, 64) && Spells(sDigits, s, 64) && Spells(eDigits, e, 64)
    ensures AcceptsText(c, hash, "0x" + keyX, "0x" + keyY, "0x" + messageField, "0x" + sDigits + eDigits)
  {
    HonestSignatureAccepted(c, hash, d, k, msg, s, e);
    var P := Multiple(c, d, c.generator);
    SpelledAccepted(c, hash, P.x, P.y, msg, s, e, keyX, keyY, messageField, sDigits, eDigits);
  }

  lemma CarrierIsPoint(c: Curve, a: Point)
    requires a.At? && Carrier(c, a)
    ensures IsGrumpkinPoint(c, a.x, a.y)
  {
    RemainderInRange(a.x, c.modulus);
    RemainderInRange(a.y, c.modulus);
    assert a.x * a.x * a.x + -17 == a.x * a.x * a.x - 17;
  }

  lemma HonestEquation(c: Curve, hash: seq<int> -> int, P: Point, msg: int, s: nat, e: nat, S: Point)
    requires P.At? && S.At? && Plus(c, Multiple(c, s, c.generator), Multiple(c, e, P)) == S
    requires e == hash([SCHNORR_CHALLENGE_DST, S.x, P.x, P.y, msg])
    ensures SchnorrEquation(c, hash, P.x, P.y, msg, s, e)
  {
    assert P == At(P.x, P.y);
  }

  lemma HonestCommitment(c: Curve, g: Point, d: nat, k: nat, s: int, e: nat)
    requires PrimeModulus(c) && AssociativeLaw(c) && Carrier(c, g) && Multiple(c, c.order, g) == Infinity
    requires s == (k - e * d) % c.order
    ensures Plus(c, Multiple(c, s, g), Multiple(c, e, Multiple(c, d, g))) == Multiple(c, k, g)
    ensures Carrier(c, Multiple(c, d, g))
  {
    MultipleOnCurve(c, d, g);
    SameRemainder(c, s, k, e * d);
    MultipleCombine(c, g, s, e, d);
    MultipleCongruent(c, g, s + e * d, k);
  }

  lemma MultipleCombine(c: Curve, g: Point, s: nat, e: nat, d: nat)
    requires PrimeModulus(c) && AssociativeLaw(c) && Carrier(c, g)
    ensures Plus(c, Multiple(c, s, g), Multiple(c, e, Multiple(c, d, g))) == Multiple(c, s + e * d, g)
  {
    GrumpkinMonoid(c);
    TimesCombine(Law(c), Infinity, On(c), s, e, d, g);
  }

  lemma MultipleCongruent(c: Curve, g: Point, j: nat, k: nat)
    requires PrimeModulus(c) && AssociativeLaw(c) && Carrier(c, g) && Multiple(c, c.order, g) == Infinity
    requires j % c.order == k % c.order
    ensures Multiple(c, j, g) == Multiple(c, k, g)
  {
    GrumpkinMonoid(c);
    TimesCongruent(Law(c), Infinity, On(c), c.order, j, k, g);
  }

  lemma SameRemainder(c: Curve, s: int, k: int, d: int)
    requires s == (k - d) % c.order
    ensures (s + d) % c.order == k % c.order
  {
    var n := c.order;
    var q, p, r := (k - d) / n, (s + d) / n, (s + d) % n;
    assert k - d == q * n + s && s + d == p * n + r;
    assert k == (p + q) * n + r by {
      assert (p + q) * n == p * n + q * n;
    }
    QuotientIs(k, n, p + q, r);
  }
}
