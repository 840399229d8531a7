/**
 The Jacobian doubling and addition formulas against the chord-and-tangent law, as ring
 identities. A Jacobian triple (X, Y, Z) represents the affine point (x, y) when
 X = x * Z^2 and Y = y * Z^3; nothing here divides.
 */
module CurveFormulas {
  import opened Residues

  /** Bringing a coordinate over the common denominator Z * V of two Jacobian points. */
  lemma CrossScale(m: Residue, X: int, Y: int, Z: int, x: int, y: int, V: int)
    requires RingResidue(m)
    requires m(X) == m(x * (Z * Z)) && m(Y) == m(y * (Z * Z * Z))
    ensures m(X * m(V * V)) == m(x * (Z * V * (Z * V)))
    ensures m(Y * V * m(V * V)) == m(y * (Z * V * (Z * V) * (Z * V)))
  {
    Reduced(m, V * V);
    Mul(m, X, x * (Z * Z), m(V * V), V * V);
    Mul(m, Y, y * (Z * Z * Z), V, V);
    Mul(m, Y * V, y * (Z * Z * Z) * V, m(V * V), V * V);
    SquareOfProduct(x, Z, V);
    CubeOfProduct(y, Z, V);
  }

  lemma SquareOfProduct(x: int, z: int, v: int)
    ensures x * (z * z) * (v * v) == x * (z * v * (z * v))
  {
  }

  lemma CubeOfProduct(y: int, z: int, v: int)
    ensures y * (z * z * z) * v * (v * v) == y * (z * v * (z * v) * (z * v))
  {
  }

  /**
   The last step both formulas share. With slope l, r = l * Z, v = x1 * Z^2,
   w = (x1 + x2) * Z^2 and t = y1 * Z^3, the triple (r^2 - w, r * (v - X) - t, Z)
   represents the third point of the line.
   */
  lemma Finish(m: Residue, l: int, x1: int, y1: int, x2: int, x3: int, y3: int,
               r: int, v: int, w: int, t: int, X: int, Y: int, Z: int)
    requires RingResidue(m)
    requires m(r) == m(l * Z) && m(v) == m(x1 * (Z * Z))
    requires m(w) == m((x1 + x2) * (Z * Z)) && m(t) == m(y1 * (Z * Z * Z))
    requires m(X) == m(r * r - w) && m(Y) == m(r * (v - X) - t)
    requires m(x3) == m(l * l - (x1 + x2)) && m(y3) == m(l * (x1 - x3) - y1)
    ensures m(X) == m(x3 * (Z * Z))
    ensures m(Y) == m(y3 * (Z * Z * Z))
  {
    SquareCube(m, r, l * Z);
    Sub(m, r * r, l * Z * (l * Z), w, (x1 + x2) * (Z * Z));
    FinishX(l, Z, x1 + x2);
    Mul(m, x3, l * l - (x1 + x2), Z * Z, Z * Z);
    Sub(m, v, x1 * (Z * Z), X, x3 * (Z * Z));
    Mul(m, r, l * Z, v - X, x1 * (Z * Z) - x3 * (Z * Z));
    Sub(m, r * (v - X), l * Z * (x1 * (Z * Z) - x3 * (Z * Z)), t, y1 * (Z * Z * Z));
    FinishY(l, Z, x1, x3, y1);
    Mul(m, y3, l * (x1 - x3) - y1, Z * Z * Z, Z * Z * Z);
  }

  lemma FinishX(l: int, z: int, s: int)
    ensures l * z * (l * z) - s * (z * z) == (l * l - s) * (z * z)
  {
  }

  lemma FinishY(l: int, z: int, x1: int, x3: int, y1: int)
    ensures l * z * (x1 * (z * z) - x3 * (z * z)) - y1 * (z * z * z) == (l * (x1 - x3) - y1) * (z * z * z)
  {
    var z2 := z * z;
    assert x1 * z2 - x3 * z2 == (x1 - x3) * z2;
    assert l * z * ((x1 - x3) * z2) == l * (x1 - x3) * (z2 * z);
    assert z2 * z == z * z * z;
  }

  /** Doubling: the triple the formula computes represents the tangent's third point. */
  lemma Doubling(m: Residue, X: int, Y: int, Z: int, x: int, y: int, l: int, x3: int, y3: int,
                 B: int, C: int, D: int, E: int, X3: int, Y3: int, Z3: int)
    requires RingResidue(m)
    requires m(X) == m(x * (Z * Z)) && m(Y) == m(y * (Z * Z * Z))
    requires m(B) == m(Y * Y) && m(C) == m(B * B) && m(E) == m(3 * (X * X))
    requires m(D) == m(2 * ((X + B) * (X + B) - X * X - C))
    requires m(X3) == m(E * E - 2 * D) && m(Y3) == m(E * (D - X3) - 8 * C) && m(Z3) == m(2 * Y * Z)
    requires m(l * (2 * y)) == m(3 * (x * x))
    requires m(x3) == m(l * l - (x + x)) && m(y3) == m(l * (x - x3) - y)
    ensures m(X3) == m(x3 * (Z3 * Z3))
    ensures m(Y3) == m(y3 * (Z3 * Z3 * Z3))
  {
    DoublingSlope(m, X, Y, Z, x, y, l, E, Z3);
    DoublingAbscissa(m, X, Y, Z, x, B, C, D, Z3);
    DoublingOrdinate(m, Y, Z, y, B, C, Z3);
    Add(m, D, x * (Z3 * Z3), D, x * (Z3 * Z3));
    Double(D);
    Distribute(x, x, Z3 * Z3);
    Finish(m, l, x, y, x, x3, y3, E, D, 2 * D, 8 * C, X3, Y3, Z3);
  }

  lemma Double(d: int)
    ensures d + d == 2 * d
  {
  }

  lemma Distribute(a: int, b: int, c: int)
    ensures a * c + b * c == (a + b) * c
  {
  }

  lemma DoublingSlope(m: Residue, X: int, Y: int, Z: int, x: int, y: int, l: int, E: int, Z3: int)
    requires RingResidue(m)
    requires m(X) == m(x * (Z * Z)) && m(Y) == m(y * (Z * Z * Z))
    requires m(E) == m(3 * (X * X)) && m(Z3) == m(2 * Y * Z)
    requires m(l * (2 * y)) == m(3 * (x * x))
    ensures m(E) == m(l * Z3)
  {
    SquareCube(m, X, x * (Z * Z));
    Mul(m, 3, 3, X * X, x * (Z * Z) * (x * (Z * Z)));
    Mul(m, 3 * (x * x), l * (2 * y), Z * Z * (Z * Z), Z * Z * (Z * Z));
    SlopeIdentity(x, y, l, Z);
    Mul(m, 2, 2, Y, y * (Z * Z * Z));
    Mul(m, 2 * Y, 2 * (y * (Z * Z * Z)), Z, Z);
    Mul(m, l, l, Z3, 2 * (y * (Z * Z * Z)) * Z);
  }

  lemma SlopeIdentity(x: int, y: int, l: int, z: int)
    ensures 3 * (x * (z * z) * (x * (z * z))) == 3 * (x * x) * (z * z * (z * z))
    ensures l * (2 * y) * (z * z * (z * z)) == l * (2 * (y * (z * z * z)) * z)
  {
    var z2 := z * z;
    assert x * z2 * (x * z2) == x * x * (z2 * z2);
    assert y * (z2 * z) * z == y * (z2 * z2);
  }

  lemma DoublingAbscissa(m: Residue, X: int, Y: int, Z: int, x: int, B: int, C: int, D: int, Z3: int)
    requires RingResidue(m)
    requires m(X) == m(x * (Z * Z)) && m(B) == m(Y * Y) && m(C) == m(B * B)
    requires m(D) == m(2 * ((X + B) * (X + B) - X * X - C)) && m(Z3) == m(2 * Y * Z)
    ensures m(D) == m(x * (Z3 * Z3))
  {
    Sub(m, (X + B) * (X + B) - X * X, (X + B) * (X + B) - X * X, C, B * B);
    Mul(m, 2, 2, (X + B) * (X + B) - X * X - C, (X + B) * (X + B) - X * X - B * B);
    Mul(m, 4 * X, 4 * X, B, Y * Y);
    Binomial(X, B);
    Mul(m, 4 * (Y * Y), 4 * (Y * Y), X, x * (Z * Z));
    SquareCube(m, Z3, 2 * Y * Z);
    Mul(m, x, x, Z3 * Z3, 2 * Y * Z * (2 * Y * Z));
    AbscissaIdentity(X, Y, Z, x);
  }

  lemma Binomial(a: int, b: int)
    ensures 2 * ((a + b) * (a + b) - a * a - b * b) == 4 * a * b
  {
  }

  lemma AbscissaIdentity(X: int, Y: int, Z: int, x: int)
    ensures 4 * X * (Y * Y) == 4 * (Y * Y) * X
    ensures 4 * (Y * Y) * (x * (Z * Z)) == x * (2 * Y * Z * (2 * Y * Z))
  {
  }

  lemma DoublingOrdinate(m: Residue, Y: int, Z: int, y: int, B: int, C: int, Z3: int)
    requires RingResidue(m)
    requires m(Y) == m(y * (Z * Z * Z)) && m(B) == m(Y * Y) && m(C) == m(B * B)
    requires m(Z3) == m(2 * Y * Z)
    ensures m(8 * C) == m(y * (Z3 * Z3 * Z3))
  {
    SquareCube(m, B, Y * Y);
    Mul(m, 8, 8, C, Y * Y * (Y * Y));
    Mul(m, 8 * (Y * Y * Y), 8 * (Y * Y * Y), Y, y * (Z * Z * Z));
    SquareCube(m, Z3, 2 * Y * Z);
    Mul(m, y, y, Z3 * Z3 * Z3, 2 * Y * Z * (2 * Y * Z) * (2 * Y * Z));
    OrdinateIdentity(Y, Z, y);
  }

  lemma OrdinateIdentity(Y: int, Z: int, y: int)
    ensures 8 * (Y * Y * (Y * Y)) == 8 * (Y * Y * Y) * Y
    ensures 8 * (Y * Y * Y) * (y * (Z * Z * Z)) == y * (2 * Y * Z * (2 * Y * Z) * (2 * Y * Z))
  {
  }

  /**
   Addition of points with different abscissas: the triple the formula computes represents
   the chord's third point. W is the product of the two Z coordinates.
   */
  lemma Addition(m: Residue, W: int, x1: int, y1: int, x2: int, y2: int, l: int, x3: int, y3: int,
                 u1: int, u2: int, s1: int, s2: int, h: int, i: int, j: int, r: int, v: int,
                 X3: int, Y3: int, Z3: int)
    requires RingResidue(m)
    requires m(u1) == m(x1 * (W * W)) && m(s1) == m(y1 * (W * W * W))
    requires m(u2) == m(x2 * (W * W)) && m(s2) == m(y2 * (W * W * W))
    requires m(h) == m(u2 - u1) && m(i) == m(4 * h * h) && m(j) == m(h * i)
    requires m(r) == m(2 * (s2 - s1)) && m(v) == m(u1 * i) && m(Z3) == m(2 * W * h)
    requires m(X3) == m(r * r - j - 2 * v) && m(Y3) == m(r * (v - X3) - 2 * s1 * j)
    requires m(l * (x2 - x1)) == m(y2 - y1)
    requires m(x3) == m(l * l - (x1 + x2)) && m(y3) == m(l * (x1 - x3) - y1)
    ensures m(X3) == m(x3 * (Z3 * Z3))
    ensures m(Y3) == m(y3 * (Z3 * Z3 * Z3))
  {
    AdditionSlope(m, W, x1, y1, x2, y2, l, u1, u2, s1, s2, h, r, Z3);
    AdditionAbscissa(m, W, x1, u1, h, i, v, Z3);
    AdditionSum(m, W, x1, x2, u1, u2, h, i, j, v, Z3);
    AdditionOrdinate(m, W, y1, s1, h, i, j, Z3);
    assert r * r - j - 2 * v == r * r - (j + 2 * v);
    Finish(m, l, x1, y1, x2, x3, y3, r, v, j + 2 * v, 2 * s1 * j, X3, Y3, Z3);
  }

  lemma AdditionSlope(m: Residue, W: int, x1: int, y1: int, x2: int, y2: int, l: int,
                      u1: int, u2: int, s1: int, s2: int, h: int, r: int, Z3: int)
    requires RingResidue(m)
    requires m(u1) == m(x1 * (W * W)) && m(s1) == m(y1 * (W * W * W))
    requires m(u2) == m(x2 * (W * W)) && m(s2) == m(y2 * (W * W * W))
    requires m(h) == m(u2 - u1) && m(r) == m(2 * (s2 - s1)) && m(Z3) == m(2 * W * h)
    requires m(l * (x2 - x1)) == m(y2 - y1)
    ensures m(r) == m(l * Z3)
  {
    Sub(m, s2, y2 * (W * W * W), s1, y1 * (W * W * W));
    Mul(m, 2, 2, s2 - s1, y2 * (W * W * W) - y1 * (W * W * W));
    Sub(m, u2, x2 * (W * W), u1, x1 * (W * W));
    Mul(m, 2 * W, 2 * W, h, x2 * (W * W) - x1 * (W * W));
    Mul(m, l, l, Z3, 2 * W * (x2 * (W * W) - x1 * (W * W)));
    Mul(m, l * (x2 - x1), y2 - y1, 2 * (W * W * W), 2 * (W * W * W));
    ChordSlopeIdentity(W, x1, x2, y1, y2, l);
  }

  lemma ChordSlopeIdentity(w: int, x1: int, x2: int, y1: int, y2: int, l: int)
    ensures 2 * (y2 * (w * w * w) - y1 * (w * w * w)) == (y2 - y1) * (2 * (w * w * w))
    ensures l * (2 * w * (x2 * (w * w) - x1 * (w * w))) == l * (x2 - x1) * (2 * (w * w * w))
  {
    assert x2 * (w * w) - x1 * (w * w) == (x2 - x1) * (w * w);
    assert w * ((x2 - x1) * (w * w)) == (x2 - x1) * (w * w * w);
  }

  lemma AdditionAbscissa(m: Residue, W: int, x1: int, u1: int, h: int, i: int, v: int, Z3: int)
    requires RingResidue(m)
    requires m(u1) == m(x1 * (W * W)) && m(i) == m(4 * h * h) && m(v) == m(u1 * i)
    requires m(Z3) == m(2 * W * h)
    ensures m(v) == m(x1 * (Z3 * Z3))
  {
    Mul(m, u1, x1 * (W * W), i, 4 * h * h);
    SquareCube(m, Z3, 2 * W * h);
    Mul(m, x1, x1, Z3 * Z3, 2 * W * h * (2 * W * h));
    ScaledSquare(x1, W, h);
  }

  lemma ScaledSquare(x: int, w: int, h: int)
    ensures x * (w * w) * (4 * h * h) == x * (2 * w * h * (2 * w * h))
  {
  }

  lemma AdditionSum(m: Residue, W: int, x1: int, x2: int, u1: int, u2: int, h: int, i: int, j: int, v: int, Z3: int)
    requires RingResidue(m)
    requires m(u1) == m(x1 * (W * W)) && m(u2) == m(x2 * (W * W)) && m(h) == m(u2 - u1)
    requires m(i) == m(4 * h * h) && m(j) == m(h * i) && m(v) == m(u1 * i) && m(Z3) == m(2 * W * h)
    ensures m(j + 2 * v) == m((x1 + x2) * (Z3 * Z3))
  {
    AdditionAbscissa(m, W, x1, u1, h, i, v, Z3);
    Mul(m, h, u2 - u1, i, i);
    Add(m, j, (u2 - u1) * i, v, u1 * i);
    Add(m, j + v, (u2 - u1) * i + u1 * i, v, x1 * (Z3 * Z3));
    Mul(m, u2, u2, i, i);
    Reduced(m, u2 * i);
    AdditionAbscissa(m, W, x2, u2, h, i, m(u2 * i), Z3);
    assert (u2 - u1) * i + u1 * i == u2 * i;
    Add(m, u2 * i, x2 * (Z3 * Z3), x1 * (Z3 * Z3), x1 * (Z3 * Z3));
    Distribute(x2, x1, Z3 * Z3);
    assert j + v + v == j + 2 * v;
  }

  lemma AdditionOrdinate(m: Residue, W: int, y1: int, s1: int, h: int, i: int, j: int, Z3: int)
    requires RingResidue(m)
    requires m(s1) == m(y1 * (W * W * W)) && m(i) == m(4 * h * h) && m(j) == m(h * i)
    requires m(Z3) == m(2 * W * h)
    ensures m(2 * s1 * j) == m(y1 * (Z3 * Z3 * Z3))
  {
    Mul(m, h, h, i, 4 * h * h);
    Mul(m, 2, 2, s1, y1 * (W * W * W));
    Mul(m, 2 * s1, 2 * (y1 * (W * W * W)), j, h * (4 * h * h));
    SquareCube(m, Z3, 2 * W * h);
    Mul(m, y1, y1, Z3 * Z3 * Z3, 2 * W * h * (2 * W * h) * (2 * W * h));
    ScaledCube(y1, W, h);
  }

  lemma ScaledCube(y: int, w: int, h: int)
    ensures 2 * (y * (w * w * w)) * (h * (4 * h * h)) == y * (2 * w * h * (2 * w * h) * (2 * w * h))
  {
    var w3, h3 := w * w * w, h * h * h;
    assert h * (4 * h * h) == 4 * h3;
    CubeOfDouble(w, h);
    assert 2 * (y * w3) * (4 * h3) == y * (8 * (w3 * h3));
  }

  lemma CubeOfDouble(w: int, h: int)
    ensures 2 * w * h * (2 * w * h) * (2 * w * h) == 8 * (w * w * w * (h * h * h))
  {
    var p := w * h;
    assert 2 * w * h == 2 * p;
    assert p * p * p == w * w * w * (h * h * h);
  }

  // Closure: the third point of a chord or a tangent is on the curve y^2 = x^3 + b.

  /** How far (x, y) is from the curve. */
  function Defect(b: int, x: int, y: int): int {
    x * x * x + b - y * y
  }

  /** The point of the line of slope l through (x1, y1) at abscissa l^2 - x1 - x2. */
  lemma ChordDefect(b: int, l: int, x1: int, y1: int, x2: int)
    ensures var t := l * l - (x1 + x2);
            (x2 - x1) * Defect(b, t, y1 + l * (t - x1))
            == (x2 - t) * Defect(b, x1, y1) + (t - x1) * Defect(b, x2, y1 + l * (x2 - x1))
  {
    var t := l * l - (x1 + x2);
    var s, u := x2 - x1, t - x1;
    DefectDifference(b, x1, y1, l, t);
    DefectDifference(b, x1, y1, l, x2);
    var ft := t * t + t * x1 + x1 * x1 - 2 * y1 * l - l * l * u;
    var f2 := x2 * x2 + x2 * x1 + x1 * x1 - 2 * y1 * l - l * l * s;
    ThirdRoot(l * l, x1, x2);
    assert ft == f2;
    ChordCombine(s, u, Defect(b, x1, y1), ft);
  }

  lemma ChordCombine(s: int, u: int, d: int, f: int)
    ensures s * (d + u * f) == (s - u) * d + u * (d + s * f)
  {
  }

  lemma ThirdRoot(l2: int, x1: int, x2: int)
    ensures var t := l2 - (x1 + x2);
            t * t + t * x1 - l2 * (t - x1) == x2 * x2 + x2 * x1 - l2 * (x2 - x1)
  {
  }

  lemma DefectDifference(b: int, x: int, y: int, l: int, t: int)
    ensures Defect(b, t, y + l * (t - x))
            == Defect(b, x, y) + (t - x) * (t * t + t * x + x * x - 2 * y * l - l * l * (t - x))
  {
    var u := t - x;
    CubeDifference(t, x);
    assert (y + l * u) * (y + l * u) == y * y + u * (2 * y * l + l * l * u);
    Distribute(t * t + t * x + x * x, -(2 * y * l + l * l * u), u);
  }

  lemma CubeDifference(t: int, x: int)
    ensures t * t * t == x * x * x + (t - x) * (t * t + t * x + x * x)
  {
  }

  /** The same for the tangent at (x, y). */
  lemma TangentDefect(b: int, l: int, x: int, y: int)
    ensures var t := l * l - (x + x);
            Defect(b, t, y + l * (t - x)) == Defect(b, x, y) + (t - x) * (3 * (x * x) - l * (2 * y))
  {
    var t := l * l - (x + x);
    DefectDifference(b, x, y, l, t);
    ThirdRoot(l * l, x, x);
    assert t * t + t * x + x * x - 2 * y * l - l * l * (t - x) == 3 * (x * x) - l * (2 * y);
  }
}
