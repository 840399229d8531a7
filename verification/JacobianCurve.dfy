/**
 Points of y^2 = x^3 + b in Jacobian coordinates over an arbitrary field residue map `m`,
 and their refinement of the affine chord-and-tangent law.
 */
module JacobianCurve {
  import opened Residues
  import opened CurveFormulas

  /** Z == 0 is the point at infinity. */
  datatype Jacobian = Jacobian(X: int, Y: int, Z: int)

  datatype Point = Infinity | At(x: int, y: int)

  const Neutral := Jacobian(0, 1, 0)

  function Double(m: Residue, p: Jacobian): Jacobian {
    if p.Z == 0 || p.Y == 0 then Neutral else
      var A := m(p.X * p.X);
      var B := m(p.Y * p.Y);
      var C := m(B * B);
      var D := m(2 * (m((p.X + B) * (p.X + B)) - A - C));
      var E := m(3 * A);
      var X := m(E * E - 2 * D);
      Jacobian(X, m(E * (D - X) - 8 * C), m(2 * p.Y * p.Z))
  }

  function AddJ(m: Residue, p: Jacobian, q: Jacobian): Jacobian {
    if p.Z == 0 then q
    else if q.Z == 0 then p
    else
      var z1z1 := m(p.Z * p.Z);
      var z2z2 := m(q.Z * q.Z);
      var u1 := m(p.X * z2z2);
      var u2 := m(q.X * z1z1);
      var s1 := m(p.Y * q.Z * z2z2);
      var s2 := m(q.Y * p.Z * z1z1);
      if u1 == u2 then
        if s1 == s2 then Double(m, p) else Neutral
      else
        Chord(m, p.Z, q.Z, z1z1, z2z2, u1, u2, s1, s2)
  }

  function Chord(m: Residue, Z1: int, Z2: int, z1z1: int, z2z2: int, u1: int, u2: int, s1: int, s2: int): Jacobian {
    var h := m(u2 - u1);
    var i := m(4 * h * h);
    var j := m(h * i);
    var r := m(2 * (s2 - s1));
    var v := m(u1 * i);
    var X := m(r * r - j - 2 * v);
    Jacobian(X, m(r * (v - X) - 2 * s1 * j), m((m((Z1 + Z2) * (Z1 + Z2)) - z1z1 - z2z2) * h))
  }

  // The textbook law, on affine points.

  ghost function Third(m: Residue, l: int, a: Point, x2: int): Point
    requires a.At?
  {
    var x3 := m(l * l - (a.x + x2));
    At(x3, m(l * (a.x - x3) - a.y))
  }

  ghost function AffineAdd(m: Residue, inv: int -> int, a: Point, b: Point): Point {
    if a.Infinity? then b
    else if b.Infinity? then a
    else if a.x != b.x then Third(m, m((b.y - a.y) * inv(b.x - a.x)), a, b.x)
    else if m(a.y + b.y) == 0 then Infinity
    else Third(m, m(3 * (a.x * a.x) * inv(2 * a.y)), a, a.x)
  }

  ghost predicate OnCurve(m: Residue, b: int, a: Point) {
    a.At? ==> m(a.x) == a.x && m(a.y) == a.y && m(a.y * a.y) == m(a.x * a.x * a.x + b)
  }

  /** A field in which zero and one are written 0 and 1, and two is not zero. */
  ghost predicate OddField(m: Residue, inv: int -> int) {
    FieldResidue(m, inv) && m(0) == 0 && m(1) == 1 && m(2) != 0
  }

  ghost predicate Represents(m: Residue, p: Jacobian, a: Point) {
    && m(p.X) == p.X && m(p.Y) == p.Y && m(p.Z) == p.Z
    && (a.Infinity? <==> p.Z == 0)
    && (a.At? ==>
          && m(a.x) == a.x && m(a.y) == a.y
          && m(p.X) == m(a.x * (p.Z * p.Z)) && m(p.Y) == m(a.y * (p.Z * p.Z * p.Z)))
  }

  /** The Jacobian form of the curve equation, Y^2 = X^3 + b * Z^6. */
  ghost predicate OnJacobianCurve(m: Residue, b: int, p: Jacobian) {
    m(p.Y * p.Y) == m(p.X * p.X * p.X + b * (p.Z * p.Z * p.Z * (p.Z * p.Z * p.Z)))
  }

  lemma ZeroTimes(m: Residue, inv: int -> int, a: int, c: int)
    requires OddField(m, inv) && m(c) != 0
    ensures m(a * c) == 0 <==> m(a) == 0
  {
    if m(a) == 0 {
      Mul(m, a, 0, c, c);
    } else {
      NoZeroDivisors(m, inv, a, c);
    }
  }

  lemma SquareCubeNonzero(m: Residue, inv: int -> int, z: int)
    requires OddField(m, inv) && m(z) != 0
    ensures m(z * z) != 0 && m(z * z * z) != 0
  {
    ZeroTimes(m, inv, z, z);
    ZeroTimes(m, inv, z * z, z);
  }

  /** The slopes solve their linear equations. */
  lemma Quotient(m: Residue, inv: int -> int, n: int, d: int)
    requires FieldResidue(m, inv) && m(d) != m(0)
    ensures m(m(n * inv(d)) * d) == m(n)
  {
    assert InverseLaw(m, inv, d);
    Reduced(m, n * inv(d));
    Mul(m, m(n * inv(d)), n * inv(d), d, d);
    Mul(m, n, n, d * inv(d), 1);
    assert n * inv(d) * d == n * (d * inv(d));
  }

  lemma DifferenceZero(m: Residue, a: int, b: int)
    requires RingResidue(m) && m(a) == a && m(b) == b && m(0) == 0
    ensures m(a - b) == 0 <==> a == b
  {
    if m(a - b) == 0 {
      Add(m, a - b, 0, b, b);
      assert a - b + b == a;
    }
  }

  /** Twice a value is zero only when the value is. */
  lemma TwiceZero(m: Residue, inv: int -> int, y: int)
    requires OddField(m, inv)
    ensures m(y + y) == 0 <==> m(y) == 0
    ensures m(2 * y) == 0 <==> m(y) == 0
  {
    ZeroTimes(m, inv, y, 2);
    assert y * 2 == y + y == 2 * y;
  }

  lemma TwiceProduct(m: Residue, inv: int -> int, a: int, b: int)
    requires OddField(m, inv) && m(a) != 0 && m(b) != 0
    ensures m(2 * a * b) != 0
  {
    TwiceZero(m, inv, a);
    ZeroTimes(m, inv, 2 * a, b);
  }

  // Refinement: doubling.

  /** Doubling follows the tangent law, on or off the curve and for every Z. */
  lemma DoubleRepresents(m: Residue, inv: int -> int, p: Jacobian, a: Point)
    requires OddField(m, inv) && Represents(m, p, a)
    ensures Represents(m, Double(m, p), AffineAdd(m, inv, a, a))
  {
    if a.At? {
      SquareCubeNonzero(m, inv, p.Z);
      ZeroTimes(m, inv, a.y, p.Z * p.Z * p.Z);
      TwiceZero(m, inv, a.y);
      if p.Y != 0 {
        DoubleFinite(m, inv, p, a);
      }
    }
  }

  lemma DoubleFinite(m: Residue, inv: int -> int, p: Jacobian, a: Point)
    requires OddField(m, inv) && Represents(m, p, a)
    requires a.At? && p.Y != 0 && m(2 * a.y) != 0
    ensures Represents(m, Double(m, p), Third(m, m(3 * (a.x * a.x) * inv(2 * a.y)), a, a.x))
  {
    var d := Double(m, p);
    var l := m(3 * (a.x * a.x) * inv(2 * a.y));
    var c := Third(m, l, a, a.x);
    Quotient(m, inv, 3 * (a.x * a.x), 2 * a.y);
    var A, B := m(p.X * p.X), m(p.Y * p.Y);
    var C := m(B * B);
    var D := m(2 * (m((p.X + B) * (p.X + B)) - A - C));
    DoubleTriple(m, p.X, p.Y, p.Z, a.x, a.y, l, c.x, c.y, A, B, C, D, m(3 * A), d.X, d.Y, d.Z);
    TwiceProduct(m, inv, p.Y, p.Z);
  }

  lemma DoubleTriple(m: Residue, X: int, Y: int, Z: int, x: int, y: int, l: int, x3: int, y3: int,
                     A: int, B: int, C: int, D: int, E: int, X3: int, Y3: int, Z3: int)
    requires RingResidue(m)
    requires m(X) == m(x * (Z * Z)) && m(Y) == m(y * (Z * Z * Z))
    requires A == m(X * X) && B == m(Y * Y) && C == m(B * B) && E == m(3 * A)
    requires D == m(2 * (m((X + B) * (X + B)) - A - C))
    requires X3 == m(E * E - 2 * D) && Y3 == m(E * (D - X3) - 8 * C) && Z3 == m(2 * Y * Z)
    requires m(l * (2 * y)) == m(3 * (x * x))
    requires x3 == m(l * l - (x + x)) && y3 == m(l * (x - x3) - y)
    ensures m(X3) == X3 == m(x3 * (Z3 * Z3))
    ensures m(Y3) == Y3 == m(y3 * (Z3 * Z3 * Z3))
    ensures m(Z3) == Z3 && m(x3) == x3 && m(y3) == y3
  {
    Reduced(m, X * X);
    Reduced(m, Y * Y);
    Reduced(m, B * B);
    Reduced(m, 3 * A);
    Reduced(m, 2 * (m((X + B) * (X + B)) - A - C));
    Reduced(m, E * E - 2 * D);
    Reduced(m, E * (D - X3) - 8 * C);
    Reduced(m, 2 * Y * Z);
    Reduced(m, l * l - (x + x));
    Reduced(m, l * (x - x3) - y);
    Mul(m, 3, 3, A, X * X);
    DoubleD(m, X, A, B, C);
    Doubling(m, X, Y, Z, x, y, l, x3, y3, B, C, D, E, X3, Y3, Z3);
  }

  lemma DoubleD(m: Residue, X: int, A: int, B: int, C: int)
    requires RingResidue(m) && m(A) == m(X * X)
    ensures m(2 * (m((X + B) * (X + B)) - A - C)) == m(2 * ((X + B) * (X + B) - X * X - C))
  {
    Reduced(m, (X + B) * (X + B));
    Sub(m, m((X + B) * (X + B)), (X + B) * (X + B), A, X * X);
    Sub(m, m((X + B) * (X + B)) - A, (X + B) * (X + B) - X * X, C, C);
    Mul(m, 2, 2, m((X + B) * (X + B)) - A - C, (X + B) * (X + B) - X * X - C);
  }

  // Refinement: addition.

  /**
   Addition follows the chord-and-tangent law in every case: either operand at infinity,
   equal points, opposite points and points with different abscissas.
   */
  lemma AddRepresents(m: Residue, inv: int -> int, b: int, p: Jacobian, q: Jacobian, a: Point, c: Point)
    requires OddField(m, inv) && Represents(m, p, a) && Represents(m, q, c)
    requires OnCurve(m, b, a) && OnCurve(m, b, c)
    ensures Represents(m, AddJ(m, p, q), AffineAdd(m, inv, a, c))
  {
    if a.At? && c.At? {
      if a.x != c.x {
        AddDifferent(m, inv, p, q, a, c);
      } else {
        SameAbscissa(m, inv, b, a, c);
        AddSame(m, inv, p, q, a, c);
      }
    }
  }

  lemma AddDifferent(m: Residue, inv: int -> int, p: Jacobian, q: Jacobian, a: Point, c: Point)
    requires OddField(m, inv) && Represents(m, p, a) && Represents(m, q, c) && a.At? && c.At?
    requires a.x != c.x
    ensures Represents(m, AddJ(m, p, q), AffineAdd(m, inv, a, c))
  {
    var u1, u2 := m(p.X * m(q.Z * q.Z)), m(q.X * m(p.Z * p.Z));
    var s1, s2 := m(p.Y * q.Z * m(q.Z * q.Z)), m(q.Y * p.Z * m(p.Z * p.Z));
    CommonDenominator(m, inv, p, q, a, c, u1, u2, s1, s2);
    ChordRepresents(m, inv, p.Z, q.Z, a, c, u1, u2, s1, s2);
  }

  lemma AddSame(m: Residue, inv: int -> int, p: Jacobian, q: Jacobian, a: Point, c: Point)
    requires OddField(m, inv) && Represents(m, p, a) && Represents(m, q, c) && a.At? && c.At?
    requires a.x == c.x && (a.y != c.y ==> m(a.y + c.y) == 0)
    ensures Represents(m, AddJ(m, p, q), AffineAdd(m, inv, a, c))
  {
    var u1, u2 := m(p.X * m(q.Z * q.Z)), m(q.X * m(p.Z * p.Z));
    var s1, s2 := m(p.Y * q.Z * m(q.Z * q.Z)), m(q.Y * p.Z * m(p.Z * p.Z));
    CommonDenominator(m, inv, p, q, a, c, u1, u2, s1, s2);
    if a.y == c.y {
      DoubleRepresents(m, inv, p, a);
    }
  }

  /** The scaled coordinates compare as the affine ones do. */
  lemma CommonDenominator(m: Residue, inv: int -> int, p: Jacobian, q: Jacobian, a: Point, c: Point,
                          u1: int, u2: int, s1: int, s2: int)
    requires OddField(m, inv) && Represents(m, p, a) && Represents(m, q, c) && a.At? && c.At?
    requires u1 == m(p.X * m(q.Z * q.Z)) && u2 == m(q.X * m(p.Z * p.Z))
    requires s1 == m(p.Y * q.Z * m(q.Z * q.Z)) && s2 == m(q.Y * p.Z * m(p.Z * p.Z))
    ensures var W := p.Z * q.Z;
            && m(u1) == m(a.x * (W * W)) && m(u2) == m(c.x * (W * W))
            && m(s1) == m(a.y * (W * W * W)) && m(s2) == m(c.y * (W * W * W))
            && m(W) != 0
    ensures m(u1) == u1 && m(u2) == u2
    ensures u1 == u2 <==> a.x == c.x
    ensures s1 == s2 <==> a.y == c.y
  {
    var W := p.Z * q.Z;
    CrossScale(m, p.X, p.Y, p.Z, a.x, a.y, q.Z);
    CrossScale(m, q.X, q.Y, q.Z, c.x, c.y, p.Z);
    assert q.Z * p.Z == W;
    Reduced(m, p.X * m(q.Z * q.Z));
    Reduced(m, q.X * m(p.Z * p.Z));
    Reduced(m, p.Y * q.Z * m(q.Z * q.Z));
    Reduced(m, q.Y * p.Z * m(p.Z * p.Z));
    ZeroTimes(m, inv, p.Z, q.Z);
    SquareCubeNonzero(m, inv, W);
    if u1 == u2 {
      Cancel(m, inv, a.x, c.x, W * W);
    }
    if s1 == s2 {
      Cancel(m, inv, a.y, c.y, W * W * W);
    }
  }

  /** On the curve, points that share an abscissa are equal or opposite. */
  lemma SameAbscissa(m: Residue, inv: int -> int, b: int, a: Point, c: Point)
    requires OddField(m, inv) && OnCurve(m, b, a) && OnCurve(m, b, c) && a.At? && c.At? && a.x == c.x
    ensures a.y != c.y ==> m(a.y + c.y) == 0
    ensures a.y == c.y && m(a.y + c.y) != 0 ==> m(a.y) != 0
  {
    TwiceZero(m, inv, a.y);
    if m(a.y + c.y) != 0 {
      Sub(m, a.y * a.y, c.y * c.y, c.y * c.y, c.y * c.y);
      DifferenceOfSquares(a.y, c.y);
      ZeroTimes(m, inv, a.y - c.y, a.y + c.y);
      DifferenceZero(m, a.y, c.y);
    }
  }

  lemma DifferenceOfSquares(a: int, b: int)
    ensures (a - b) * (a + b) == a * a - b * b
  {
  }

  lemma ChordRepresents(m: Residue, inv: int -> int, Z1: int, Z2: int, a: Point, c: Point,
                        u1: int, u2: int, s1: int, s2: int)
    requires OddField(m, inv) && a.At? && c.At? && a.x != c.x && u1 != u2
    requires m(a.x) == a.x && m(c.x) == c.x && m(u1) == u1 && m(u2) == u2
    requires var W := Z1 * Z2;
             && m(u1) == m(a.x * (W * W)) && m(u2) == m(c.x * (W * W))
             && m(s1) == m(a.y * (W * W * W)) && m(s2) == m(c.y * (W * W * W))
             && m(W) != 0
    ensures Represents(m, Chord(m, Z1, Z2, m(Z1 * Z1), m(Z2 * Z2), u1, u2, s1, s2), AffineAdd(m, inv, a, c))
  {
    var W := Z1 * Z2;
    var h := m(u2 - u1);
    var i := m(4 * h * h);
    var d := Chord(m, Z1, Z2, m(Z1 * Z1), m(Z2 * Z2), u1, u2, s1, s2);
    var l := m((c.y - a.y) * inv(c.x - a.x));
    var e := Third(m, l, a, c.x);
    DifferenceZero(m, c.x, a.x);
    Quotient(m, inv, c.y - a.y, c.x - a.x);
    ChordTriple(m, Z1, Z2, a.x, a.y, c.x, c.y, l, e.x, e.y, u1, u2, s1, s2, h, i, m(h * i), m(2 * (s2 - s1)), m(u1 * i),
                d.X, d.Y, d.Z);
    DifferenceZero(m, u2, u1);
    Reduced(m, u2 - u1);
    TwiceProduct(m, inv, W, h);
  }

  lemma ChordTriple(m: Residue, Z1: int, Z2: int, x1: int, y1: int, x2: int, y2: int, l: int, x3: int, y3: int,
                    u1: int, u2: int, s1: int, s2: int, h: int, i: int, j: int, r: int, v: int,
                    X3: int, Y3: int, Z3: int)
    requires RingResidue(m)
    requires var W := Z1 * Z2;
             && m(u1) == m(x1 * (W * W)) && m(s1) == m(y1 * (W * W * W))
             && m(u2) == m(x2 * (W * W)) && m(s2) == m(y2 * (W * W * W))
    requires h == m(u2 - u1) && i == m(4 * h * h) && j == m(h * i) && r == m(2 * (s2 - s1)) && v == m(u1 * i)
    requires X3 == m(r * r - j - 2 * v) && Y3 == m(r * (v - X3) - 2 * s1 * j)
    requires Z3 == m((m((Z1 + Z2) * (Z1 + Z2)) - m(Z1 * Z1) - m(Z2 * Z2)) * h)
    requires m(l * (x2 - x1)) == m(y2 - y1)
    requires x3 == m(l * l - (x1 + x2)) && y3 == m(l * (x1 - x3) - y1)
    ensures m(X3) == X3 == m(x3 * (Z3 * Z3))
    ensures m(Y3) == Y3 == m(y3 * (Z3 * Z3 * Z3))
    ensures m(Z3) == Z3 == m(2 * (Z1 * Z2) * h) && m(x3) == x3 && m(y3) == y3
  {
    Reduced(m, u2 - u1);
    Reduced(m, 4 * h * h);
    Reduced(m, h * i);
    Reduced(m, 2 * (s2 - s1));
    Reduced(m, u1 * i);
    Reduced(m, r * r - j - 2 * v);
    Reduced(m, r * (v - X3) - 2 * s1 * j);
    Reduced(m, (m((Z1 + Z2) * (Z1 + Z2)) - m(Z1 * Z1) - m(Z2 * Z2)) * h);
    Reduced(m, l * l - (x1 + x2));
    Reduced(m, l * (x1 - x3) - y1);
    ChordZ(m, Z1, Z2, h);
    Addition(m, Z1 * Z2, x1, y1, x2, y2, l, x3, y3, u1, u2, s1, s2, h, i, j, r, v, X3, Y3, Z3);
  }

  lemma ChordZ(m: Residue, Z1: int, Z2: int, h: int)
    requires RingResidue(m)
    ensures m((m((Z1 + Z2) * (Z1 + Z2)) - m(Z1 * Z1) - m(Z2 * Z2)) * h) == m(2 * (Z1 * Z2) * h)
  {
    var s, t, u := (Z1 + Z2) * (Z1 + Z2), Z1 * Z1, Z2 * Z2;
    Reduced(m, s);
    Reduced(m, t);
    Reduced(m, u);
    Sub(m, m(s), s, m(t), t);
    Sub(m, m(s) - m(t), s - t, m(u), u);
    assert s - t - u == 2 * (Z1 * Z2);
    Mul(m, m(s) - m(t) - m(u), 2 * (Z1 * Z2), h, h);
  }

  // Closure and the Jacobian equation.

  /** The sum of two points of the curve is a point of the curve. */
  lemma AffineAddOnCurve(m: Residue, inv: int -> int, b: int, a: Point, c: Point)
    requires OddField(m, inv) && OnCurve(m, b, a) && OnCurve(m, b, c)
    ensures OnCurve(m, b, AffineAdd(m, inv, a, c))
  {
    if a.At? && c.At? {
      if a.x != c.x {
        ChordOnCurve(m, inv, b, a, c);
      } else if m(a.y + c.y) != 0 {
        SameAbscissa(m, inv, b, a, c);
        TwiceZero(m, inv, a.y);
        TangentOnCurve(m, inv, b, a);
      }
    }
  }

  lemma ChordOnCurve(m: Residue, inv: int -> int, b: int, a: Point, c: Point)
    requires OddField(m, inv) && OnCurve(m, b, a) && OnCurve(m, b, c) && a.At? && c.At? && a.x != c.x
    ensures OnCurve(m, b, Third(m, m((c.y - a.y) * inv(c.x - a.x)), a, c.x))
  {
    var l := m((c.y - a.y) * inv(c.x - a.x));
    DefectZero(m, b, a.x, a.y);
    DefectZero(m, b, c.x, c.y);
    DifferenceZero(m, c.x, a.x);
    Quotient(m, inv, c.y - a.y, c.x - a.x);
    ChordThirdDefect(m, inv, b, l, a.x, a.y, c.x, c.y);
    ThirdOnCurve(m, b, l, a, c.x);
  }

  lemma TangentOnCurve(m: Residue, inv: int -> int, b: int, a: Point)
    requires OddField(m, inv) && OnCurve(m, b, a) && a.At? && m(2 * a.y) != 0
    ensures OnCurve(m, b, Third(m, m(3 * (a.x * a.x) * inv(2 * a.y)), a, a.x))
  {
    var l := m(3 * (a.x * a.x) * inv(2 * a.y));
    DefectZero(m, b, a.x, a.y);
    Quotient(m, inv, 3 * (a.x * a.x), 2 * a.y);
    TangentThirdDefect(m, b, l, a.x, a.y);
    ThirdOnCurve(m, b, l, a, a.x);
  }

  lemma DefectZero(m: Residue, b: int, x: int, y: int)
    requires RingResidue(m) && m(0) == 0
    ensures m(y * y) == m(x * x * x + b) <==> m(Defect(b, x, y)) == 0
  {
    if m(y * y) == m(x * x * x + b) {
      Sub(m, x * x * x + b, y * y, y * y, y * y);
    } else if m(Defect(b, x, y)) == m(0) {
      Add(m, Defect(b, x, y), 0, y * y, y * y);
    }
  }

  lemma ChordThirdDefect(m: Residue, inv: int -> int, b: int, l: int, x1: int, y1: int, x2: int, y2: int)
    requires OddField(m, inv) && m(x2 - x1) != 0 && m(l * (x2 - x1)) == m(y2 - y1)
    requires m(Defect(b, x1, y1)) == 0 && m(Defect(b, x2, y2)) == 0
    ensures var t := l * l - (x1 + x2); m(Defect(b, t, y1 + l * (t - x1))) == 0
  {
    var t := l * l - (x1 + x2);
    ChordDefect(b, l, x1, y1, x2);
    Add(m, y1, y1, l * (x2 - x1), y2 - y1);
    assert y1 + (y2 - y1) == y2;
    DefectCongruent(m, b, x2, x2, y1 + l * (x2 - x1), y2);
    Mul(m, x2 - t, x2 - t, Defect(b, x1, y1), 0);
    Mul(m, t - x1, t - x1, Defect(b, x2, y1 + l * (x2 - x1)), 0);
    Add(m, (x2 - t) * Defect(b, x1, y1), 0, (t - x1) * Defect(b, x2, y1 + l * (x2 - x1)), 0);
    ZeroTimes(m, inv, Defect(b, t, y1 + l * (t - x1)), x2 - x1);
    assert Defect(b, t, y1 + l * (t - x1)) * (x2 - x1) == (x2 - x1) * Defect(b, t, y1 + l * (t - x1));
  }

  lemma TangentThirdDefect(m: Residue, b: int, l: int, x: int, y: int)
    requires RingResidue(m) && m(0) == 0 && m(l * (2 * y)) == m(3 * (x * x)) && m(Defect(b, x, y)) == 0
    ensures var t := l * l - (x + x); m(Defect(b, t, y + l * (t - x))) == 0
  {
    var t := l * l - (x + x);
    TangentDefect(b, l, x, y);
    Sub(m, 3 * (x * x), l * (2 * y), l * (2 * y), l * (2 * y));
    Mul(m, t - x, t - x, 3 * (x * x) - l * (2 * y), 0);
    Add(m, Defect(b, x, y), 0, (t - x) * (3 * (x * x) - l * (2 * y)), 0);
  }

  lemma DefectCongruent(m: Residue, b: int, x: int, x': int, y: int, y': int)
    requires RingResidue(m) && m(x) == m(x') && m(y) == m(y')
    ensures m(Defect(b, x, y)) == m(Defect(b, x', y'))
  {
    SquareCube(m, x, x');
    SquareCube(m, y, y');
    Add(m, x * x * x, x' * x' * x', b, b);
    Sub(m, x * x * x + b, x' * x' * x' + b, y * y, y' * y');
  }

  lemma ThirdOnCurve(m: Residue, b: int, l: int, a: Point, x2: int)
    requires RingResidue(m) && m(0) == 0 && a.At?
    requires var t := l * l - (a.x + x2); m(Defect(b, t, a.y + l * (t - a.x))) == 0
    ensures OnCurve(m, b, Third(m, l, a, x2))
  {
    var t := l * l - (a.x + x2);
    var c := Third(m, l, a, x2);
    var y := a.y + l * (t - a.x);
    Reduced(m, t);
    Reduced(m, l * (a.x - c.x) - a.y);
    Sub(m, a.x, a.x, c.x, t);
    Mul(m, l, l, a.x - c.x, a.x - t);
    Sub(m, l * (a.x - c.x), l * (a.x - t), a.y, a.y);
    assert l * (a.x - t) - a.y == -y;
    SquareCube(m, c.y, -y);
    assert (-y) * (-y) == y * y;
    SquareCube(m, c.x, t);
    DefectZero(m, b, t, y);
    Add(m, c.x * c.x * c.x, t * t * t, b, b);
  }

  /** A triple that represents a finite point of the curve satisfies the Jacobian equation. */
  lemma RepresentsOnCurve(m: Residue, b: int, p: Jacobian, a: Point)
    requires RingResidue(m) && Represents(m, p, a) && OnCurve(m, b, a) && a.At?
    ensures OnJacobianCurve(m, b, p)
  {
    var z3 := p.Z * p.Z * p.Z;
    SquareCube(m, p.X, a.x * (p.Z * p.Z));
    SquareCube(m, p.Y, a.y * z3);
    Mul(m, a.y * a.y, a.x * a.x * a.x + b, z3 * z3, z3 * z3);
    Add(m, p.X * p.X * p.X, a.x * (p.Z * p.Z) * (a.x * (p.Z * p.Z)) * (a.x * (p.Z * p.Z)), b * (z3 * z3), b * (z3 * z3));
    JacobianIdentity(a.x, a.y, p.Z, b);
  }

  lemma JacobianIdentity(x: int, y: int, z: int, b: int)
    ensures var z3 := z * z * z;
            && y * z3 * (y * z3) == y * y * (z3 * z3)
            && (x * x * x + b) * (z3 * z3) == x * (z * z) * (x * (z * z)) * (x * (z * z)) + b * (z3 * z3)
  {
    CubeOfProductTwo(x, z * z);
    SquareCubed(z);
  }

  lemma CubeOfProductTwo(x: int, w: int)
    ensures x * w * (x * w) * (x * w) == x * x * x * (w * w * w)
  {
  }

  lemma SquareCubed(z: int)
    ensures z * z * (z * z) * (z * z) == z * z * z * (z * z * z)
  {
  }

  /** A triple represents one point only. */
  lemma RepresentsOne(m: Residue, inv: int -> int, p: Jacobian, a: Point, c: Point)
    requires OddField(m, inv) && Represents(m, p, a) && Represents(m, p, c)
    ensures a == c
  {
    if a.At? {
      SquareCubeNonzero(m, inv, p.Z);
      Cancel(m, inv, a.x, c.x, p.Z * p.Z);
      Cancel(m, inv, a.y, c.y, p.Z * p.Z * p.Z);
    }
  }

  // The affine form.

  ghost function AffineOf(m: Residue, inv: int -> int, p: Jacobian): Point {
    if p.Z == 0 then Infinity else
      var zi := inv(p.Z);
      var zi2 := m(zi * zi);
      At(m(p.X * zi2), m(p.Y * zi2 * zi))
  }

  /** `AffineOf` finds the point a canonical triple represents. */
  lemma AffineOfRepresents(m: Residue, inv: int -> int, p: Jacobian)
    requires OddField(m, inv) && m(p.X) == p.X && m(p.Y) == p.Y && m(p.Z) == p.Z
    ensures Represents(m, p, AffineOf(m, inv, p))
  {
    if p.Z != 0 {
      var zi := inv(p.Z);
      var zi2 := m(zi * zi);
      assert InverseLaw(m, inv, p.Z);
      Reduced(m, zi * zi);
      Reduced(m, p.X * zi2);
      Reduced(m, p.Y * zi2 * zi);
      Mul(m, p.X, p.X, zi2, zi * zi);
      Mul(m, p.Y, p.Y, zi2, zi * zi);
      Mul(m, p.Y * zi2, p.Y * (zi * zi), zi, zi);
      SquareCube(m, p.Z * zi, 1);
      Mul(m, p.X, p.X, p.Z * zi * (p.Z * zi), 1);
      Mul(m, p.Y, p.Y, p.Z * zi * (p.Z * zi) * (p.Z * zi), 1);
      Mul(m, m(p.X * zi2), p.X * (zi * zi), p.Z * p.Z, p.Z * p.Z);
      Mul(m, m(p.Y * zi2 * zi), p.Y * (zi * zi) * zi, p.Z * p.Z * p.Z, p.Z * p.Z * p.Z);
      SquareOfProduct(p.X, zi, p.Z);
      InversePowers(p.X, p.Y, zi, p.Z);
    }
  }

  // The Jacobian equation, from the equation itself.

  /** A canonical triple: at infinity, or satisfying the curve's equation. */
  ghost predicate Satisfies(m: Residue, b: int, p: Jacobian) {
    m(p.X) == p.X && m(p.Y) == p.Y && m(p.Z) == p.Z && (p.Z == 0 || OnJacobianCurve(m, b, p))
  }

  /** Whichever point a triple represents is on the curve exactly when the triple satisfies the equation. */
  lemma EquationIsCurve(m: Residue, inv: int -> int, b: int, p: Jacobian, a: Point)
    requires OddField(m, inv) && Represents(m, p, a)
    ensures Satisfies(m, b, p) <==> OnCurve(m, b, a)
  {
    if a.At? {
      if OnCurve(m, b, a) {
        RepresentsOnCurve(m, b, p, a);
      }
      if OnJacobianCurve(m, b, p) {
        EquationCancels(m, inv, b, p, a);
      }
    }
  }

  lemma EquationCancels(m: Residue, inv: int -> int, b: int, p: Jacobian, a: Point)
    requires OddField(m, inv) && Represents(m, p, a) && a.At? && OnJacobianCurve(m, b, p)
    ensures OnCurve(m, b, a)
  {
    var z3 := p.Z * p.Z * p.Z;
    SquareCube(m, p.X, a.x * (p.Z * p.Z));
    SquareCube(m, p.Y, a.y * z3);
    Add(m, p.X * p.X * p.X, a.x * (p.Z * p.Z) * (a.x * (p.Z * p.Z)) * (a.x * (p.Z * p.Z)), b * (z3 * z3), b * (z3 * z3));
    JacobianIdentity(a.x, a.y, p.Z, b);
    SquareCubeNonzero(m, inv, p.Z);
    ZeroTimes(m, inv, z3, z3);
    Cancel(m, inv, a.y * a.y, a.x * a.x * a.x + b, z3 * z3);
  }

  /** Doubling keeps the equation. */
  lemma DoubleKeepsEquation(m: Residue, inv: int -> int, b: int, p: Jacobian)
    requires OddField(m, inv) && Satisfies(m, b, p)
    ensures Satisfies(m, b, Double(m, p))
  {
    var a := AffineOf(m, inv, p);
    AffineOfRepresents(m, inv, p);
    EquationIsCurve(m, inv, b, p, a);
    DoubleRepresents(m, inv, p, a);
    AffineAddOnCurve(m, inv, b, a, a);
    EquationIsCurve(m, inv, b, Double(m, p), AffineAdd(m, inv, a, a));
  }

  /** Addition keeps the equation, in every case split. */
  lemma AddKeepsEquation(m: Residue, inv: int -> int, b: int, p: Jacobian, q: Jacobian)
    requires OddField(m, inv) && Satisfies(m, b, p) && Satisfies(m, b, q)
    ensures Satisfies(m, b, AddJ(m, p, q))
  {
    var a, c := AffineOf(m, inv, p), AffineOf(m, inv, q);
    AffineOfRepresents(m, inv, p);
    AffineOfRepresents(m, inv, q);
    EquationIsCurve(m, inv, b, p, a);
    EquationIsCurve(m, inv, b, q, c);
    AddRepresents(m, inv, b, p, q, a, c);
    AffineAddOnCurve(m, inv, b, a, c);
    EquationIsCurve(m, inv, b, AddJ(m, p, q), AffineAdd(m, inv, a, c));
  }

  lemma InversePowers(x: int, y: int, i: int, z: int)
    ensures x * (i * i) * (z * z) == x * (z * i * (z * i))
    ensures y * (i * i) * i * (z * z * z) == y * (z * i * (z * i) * (z * i))
  {
    SquareOfProductTwo(z, i);
    Regroup(x, i * i, z * z);
    CubeOfProductTwo(z, i);
    CubeRegroup(y, i);
    Regroup(y, i * i * i, z * z * z);
  }

  lemma SquareOfProductTwo(z: int, i: int)
    ensures i * i * (z * z) == z * i * (z * i)
  {
  }

  lemma CubeRegroup(y: int, i: int)
    ensures y * (i * i) * i == y * (i * i * i)
  {
  }
}
