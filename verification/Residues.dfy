/**
 Reasoning about integers up to a residue map, without naming the modulus.

 A residue map sends every integer to a representative; two integers stand for the same
 ring element when their representatives are equal. Lemmas are stated for an arbitrary
 residue map so that no proof about curve formulas ever unfolds a remainder.
 */
module Residues {
  type Residue = int -> int

  ghost predicate SumLaw(m: Residue, a: int, b: int, c: int, d: int) {
    m(a) == m(b) && m(c) == m(d) ==> m(a + c) == m(b + d) && m(a - c) == m(b - d)
  }

  ghost predicate ProductLaw(m: Residue, a: int, b: int, c: int, d: int) {
    m(a) == m(b) && m(c) == m(d) ==> m(a * c) == m(b * d)
  }

  ghost predicate ReducedLaw(m: Residue, a: int) {
    m(m(a)) == m(a)
  }

  /** `m` is compatible with sums, differences and products, and fixes its own results. */
  ghost predicate RingResidue(m: Residue) {
    && (forall a, b, c, d {:trigger SumLaw(m, a, b, c, d)} :: SumLaw(m, a, b, c, d))
    && (forall a, b, c, d {:trigger ProductLaw(m, a, b, c, d)} :: ProductLaw(m, a, b, c, d))
    && (forall a {:trigger ReducedLaw(m, a)} :: ReducedLaw(m, a))
  }

  ghost predicate InverseLaw(m: Residue, inv: int -> int, a: int) {
    m(a) != m(0) ==> m(a * inv(a)) == m(1)
  }

  /** Every element other than zero has the inverse `inv` gives. */
  ghost predicate FieldResidue(m: Residue, inv: int -> int) {
    && RingResidue(m)
    && (forall a {:trigger InverseLaw(m, inv, a)} :: InverseLaw(m, inv, a))
  }

  lemma Add(m: Residue, a: int, b: int, c: int, d: int)
    requires RingResidue(m) && m(a) == m(b) && m(c) == m(d)
    ensures m(a + c) == m(b + d)
  {
    assert SumLaw(m, a, b, c, d);
  }

  lemma Sub(m: Residue, a: int, b: int, c: int, d: int)
    requires RingResidue(m) && m(a) == m(b) && m(c) == m(d)
    ensures m(a - c) == m(b - d)
  {
    assert SumLaw(m, a, b, c, d);
  }

  lemma Mul(m: Residue, a: int, b: int, c: int, d: int)
    requires RingResidue(m) && m(a) == m(b) && m(c) == m(d)
    ensures m(a * c) == m(b * d)
  {
    assert ProductLaw(m, a, b, c, d);
  }

  lemma Reduced(m: Residue, a: int)
    requires RingResidue(m)
    ensures m(m(a)) == m(a)
  {
    assert ReducedLaw(m, a);
  }

  lemma SquareCube(m: Residue, a: int, b: int)
    requires RingResidue(m) && m(a) == m(b)
    ensures m(a * a) == m(b * b)
    ensures m(a * a * a) == m(b * b * b)
  {
    Mul(m, a, b, a, b);
    Mul(m, a * a, b * b, a, b);
  }

  /** A factor that is not zero can be cancelled. */
  lemma Cancel(m: Residue, inv: int -> int, a: int, b: int, c: int)
    requires FieldResidue(m, inv) && m(c) != m(0) && m(a * c) == m(b * c)
    ensures m(a) == m(b)
  {
    assert InverseLaw(m, inv, c);
    var i := inv(c);
    Mul(m, a * c, b * c, i, i);
    Regroup(a, c, i);
    Regroup(b, c, i);
    Mul(m, a, a, c * i, 1);
    Mul(m, b, b, c * i, 1);
  }

  /** A product is zero only when a factor is. */
  lemma NoZeroDivisors(m: Residue, inv: int -> int, a: int, b: int)
    requires FieldResidue(m, inv) && m(a) != m(0) && m(b) != m(0)
    ensures m(a * b) != m(0)
  {
    if m(a * b) == m(0 * b) {
      Cancel(m, inv, a, 0, b);
    }
  }

  lemma Regroup(a: int, b: int, c: int)
    ensures a * b * c == a * (b * c)
  {
  }
}
