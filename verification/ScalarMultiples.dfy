/**
 Repeated addition in a group-like structure: sums, products and periods of multiples.
 Only associativity and the neutral element are needed, on the elements of a carrier.
 */
module ScalarMultiples {
  /** p added to `zero` k times. */
  ghost function Times<P(!new)>(op: (P, P) -> P, zero: P, k: nat, p: P): P {
    if k == 0 then zero else op(Times(op, zero, k - 1, p), p)
  }

  ghost predicate Closed<P(!new)>(op: (P, P) -> P, carrier: P -> bool) {
    forall a, b :: carrier(a) && carrier(b) ==> carrier(op(a, b))
  }

  ghost predicate AssociativeAt<P(!new)>(op: (P, P) -> P, a: P, b: P, c: P) {
    op(op(a, b), c) == op(a, op(b, c))
  }

  ghost predicate Associative<P(!new)>(op: (P, P) -> P, carrier: P -> bool) {
    forall a, b, c {:trigger AssociativeAt(op, a, b, c)} ::
      carrier(a) && carrier(b) && carrier(c) ==> AssociativeAt(op, a, b, c)
  }

  ghost predicate Monoid<P(!new)>(op: (P, P) -> P, zero: P, carrier: P -> bool) {
    && carrier(zero) && Closed(op, carrier) && Associative(op, carrier)
    && (forall a :: carrier(a) ==> op(a, zero) == a && op(zero, a) == a)
  }

  lemma {:induction false} TimesInCarrier<P(!new)>(op: (P, P) -> P, zero: P, carrier: P -> bool, k: nat, p: P)
    requires Monoid(op, zero, carrier) && carrier(p)
    ensures carrier(Times(op, zero, k, p))
  {
    if k > 0 {
      TimesInCarrier(op, zero, carrier, k - 1, p);
    }
  }

  lemma {:induction false} TimesSum<P(!new)>(op: (P, P) -> P, zero: P, carrier: P -> bool, j: nat, k: nat, p: P)
    requires Monoid(op, zero, carrier) && carrier(p)
    ensures op(Times(op, zero, j, p), Times(op, zero, k, p)) == Times(op, zero, j + k, p)
  {
    TimesInCarrier(op, zero, carrier, j, p);
    if k > 0 {
      TimesInCarrier(op, zero, carrier, k - 1, p);
      TimesSum(op, zero, carrier, j, k - 1, p);
      assert AssociativeAt(op, Times(op, zero, j, p), Times(op, zero, k - 1, p), p);
    }
  }

  lemma {:induction false} TimesProduct<P(!new)>(op: (P, P) -> P, zero: P, carrier: P -> bool, j: nat, k: nat, p: P)
    requires Monoid(op, zero, carrier) && carrier(p)
    ensures Times(op, zero, j, Times(op, zero, k, p)) == Times(op, zero, j * k, p)
  {
    if j > 0 {
      TimesProduct(op, zero, carrier, j - 1, k, p);
      TimesSum(op, zero, carrier, (j - 1) * k, k, p);
      assert (j - 1) * k + k == j * k;
    }
  }

  /** Multiples repeat with the period n of p. */
  lemma TimesPeriodic<P(!new)>(op: (P, P) -> P, zero: P, carrier: P -> bool, n: nat, k: nat, p: P)
    requires Monoid(op, zero, carrier) && carrier(p) && n > 0 && Times(op, zero, n, p) == zero
    ensures Times(op, zero, k % n, p) == Times(op, zero, k, p)
  {
    var q := k / n;
    assert k == q * n + k % n;
    TimesProduct(op, zero, carrier, q, n, p);
    TimesZero(op, zero, carrier, q);
    TimesSum(op, zero, carrier, q * n, k % n, p);
    TimesInCarrier(op, zero, carrier, k % n, p);
  }

  lemma {:induction false} TimesZero<P(!new)>(op: (P, P) -> P, zero: P, carrier: P -> bool, k: nat)
    requires Monoid(op, zero, carrier)
    ensures Times(op, zero, k, zero) == zero
  {
    if k > 0 {
      TimesZero(op, zero, carrier, k - 1);
    }
  }

  /** The step of double-and-add: o + e * a through the doubled point. */
  lemma TimesHalved<P(!new)>(op: (P, P) -> P, zero: P, carrier: P -> bool, o: P, a: P, e: nat)
    requires Monoid(op, zero, carrier) && carrier(o) && carrier(a) && e > 0
    ensures op(if e % 2 == 1 then op(o, a) else o, Times(op, zero, e / 2, op(a, a))) == op(o, Times(op, zero, e, a))
  {
    assert Times(op, zero, 1, a) == op(Times(op, zero, 0, a), a) == a;
    assert Times(op, zero, 2, a) == op(a, a);
    TimesProduct(op, zero, carrier, e / 2, 2, a);
    if e % 2 == 1 {
      TimesSum(op, zero, carrier, 1, e - 1, a);
      TimesInCarrier(op, zero, carrier, e - 1, a);
      assert AssociativeAt(op, o, a, Times(op, zero, e - 1, a));
    }
  }

  lemma TimesCongruent<P(!new)>(op: (P, P) -> P, zero: P, carrier: P -> bool, n: nat, j: nat, k: nat, p: P)
    requires Monoid(op, zero, carrier) && carrier(p) && n > 0 && Times(op, zero, n, p) == zero
    requires j % n == k % n
    ensures Times(op, zero, j, p) == Times(op, zero, k, p)
  {
    TimesPeriodic(op, zero, carrier, n, j, p);
    TimesPeriodic(op, zero, carrier, n, k, p);
  }

  /** s * g + e * (d * g) is one multiple of g. */
  lemma TimesCombine<P(!new)>(op: (P, P) -> P, zero: P, carrier: P -> bool, s: nat, e: nat, d: nat, g: P)
    requires Monoid(op, zero, carrier) && carrier(g)
    ensures op(Times(op, zero, s, g), Times(op, zero, e, Times(op, zero, d, g))) == Times(op, zero, s + e * d, g)
  {
    TimesProduct(op, zero, carrier, e, d, g);
    TimesSum(op, zero, carrier, s, e * d, g);
  }
}
