/**
 JavaScript numbers as reals. The transcendental functions are values of a record, with the algebraic
 facts the proofs use about them stated in `Lawful`; the plane geometry is derived from those facts.
 */
module Numbers {

  datatype Math = Math(
    sqrt: real -> real,
    cos: real -> real,
    sin: real -> real,
    hypot: (real, real) -> real,
    pi: real)
  {
    function Sqrt(x: real): real { sqrt(x) }

    function Cos(a: real): real { cos(a) }

    function Sin(a: real): real { sin(a) }

    function Hypot(x: real, y: real): real { hypot(x, y) }

    ghost predicate SqrtLaw(x: real) {
      x >= 0.0 ==> Sqrt(x) >= 0.0 && Sqrt(x) * Sqrt(x) == x
    }

    ghost predicate UnitLaw(a: real) {
      Cos(a) * Cos(a) + Sin(a) * Sin(a) == 1.0
    }

    ghost predicate HypotLaw(x: real, y: real) {
      Hypot(x, y) >= 0.0 && Hypot(x, y) * Hypot(x, y) == x * x + y * y
    }

    ghost predicate Lawful() {
      && (forall x :: SqrtLaw(x))
      && (forall a :: UnitLaw(a))
      && (forall x, y :: HypotLaw(x, y))
      && pi > 3.0
    }
  }

  function Max(x: real, y: real): real { if x >= y then x else y }

  function Min(x: real, y: real): real { if x <= y then x else y }

  function Abs(x: real): real { if x < 0.0 then -x else x }

  function Scaled(x: real, k: real): real { x * k }

  function Ceil(x: real): int { if x.Floor as real == x then x.Floor else x.Floor + 1 }

  /** Scaling both sides by a positive number keeps a strict order. */
  lemma ScaleLess(x: real, y: real, k: real)
    requires x < y && k > 0.0
    ensures x * k < y * k
  {
    assert (y - x) * k > 0.0;
  }

  lemma ScaledLess(x: real, y: real, k: real)
    requires x < y && k > 0.0
    ensures Scaled(x, k) < Scaled(y, k) && Scaled(k, x) < Scaled(k, y)
  {
    ScaleLess(x, y, k);
    assert Scaled(k, x) == Scaled(x, k) && Scaled(k, y) == Scaled(y, k);
  }

  lemma ScaledLeq(x: real, y: real, k: real)
    requires x <= y && k > 0.0
    ensures Scaled(x, k) <= Scaled(y, k)
  {
    if x < y { ScaledLess(x, y, k); }
  }

  lemma ProductGrows(y: real, x: real)
    requires 0.0 <= y < x
    ensures y * y < x * x
  {
    assert x * x - y * y == (x - y) * (x + y);
    ScaleLess(0.0, x - y, x + y);
  }

  lemma SquareLeq(x: real, y: real)
    requires 0.0 <= x && 0.0 <= y && x * x <= y * y
    ensures x <= y
  {
    if x > y {
      ProductGrows(y, x);
      assert false;
    }
  }

  lemma SquareNonnegative(x: real)
    ensures x * x >= 0.0
  {
    if x < 0.0 {
      assert x * x == (-x) * (-x);
    }
  }

  lemma SqrtGrows(m: Math, x: real, y: real)
    requires m.Lawful() && 0.0 <= x <= y
    ensures m.Sqrt(x) <= m.Sqrt(y)
  {
    assert m.SqrtLaw(x) && m.SqrtLaw(y);
    SquareLeq(m.Sqrt(x), m.Sqrt(y));
  }

  lemma HypotCoordinates(m: Math, x: real, y: real)
    requires m.Lawful()
    ensures Abs(x) <= m.Hypot(x, y) && Abs(y) <= m.Hypot(x, y)
  {
    var h := m.Hypot(x, y);
    assert m.HypotLaw(x, y);
    SquareNonnegative(x);
    SquareNonnegative(y);
    assert Abs(x) * Abs(x) == x * x && Abs(y) * Abs(y) == y * y;
    SquareLeq(Abs(x), h);
    SquareLeq(Abs(y), h);
  }

  lemma Lagrange(x: real, y: real, u: real, v: real)
    ensures (x * u + y * v) * (x * u + y * v) + (x * v - y * u) * (x * v - y * u)
         == (x * x + y * y) * (u * u + v * v)
  {
    var p, q, r, s := x * u, y * v, x * v, y * u;
    assert p * q == r * s by {
      assert p * q == (x * u) * (y * v) == (x * v) * (y * u);
    }
    assert (p + q) * (p + q) == p * p + 2.0 * (p * q) + q * q;
    assert (r - s) * (r - s) == r * r - 2.0 * (r * s) + s * s;
    assert p * p == (x * x) * (u * u);
    assert q * q == (y * y) * (v * v);
    assert r * r == (x * x) * (v * v);
    assert s * s == (y * y) * (u * u);
    var a, b, c, d := x * x, y * y, u * u, v * v;
    assert (a + b) * (c + d) == a * c + a * d + b * c + b * d;
  }

  lemma DotBound(x: real, y: real, u: real, v: real, h: real, g: real)
    requires h >= 0.0 && g >= 0.0
    requires h * h == x * x + y * y && g * g == u * u + v * v
    ensures x * u + y * v <= h * g
  {
    var d := x * u + y * v;
    if d >= 0.0 {
      Lagrange(x, y, u, v);
      SquareNonnegative(x * v - y * u);
      assert d * d <= (h * h) * (g * g);
      assert (h * g) * (h * g) == (h * h) * (g * g);
      assert h * g >= 0.0;
      SquareLeq(d, h * g);
    } else {
      assert h * g >= 0.0;
    }
  }

  /** The triangle inequality. */
  lemma Triangle(m: Math, x: real, y: real, u: real, v: real)
    requires m.Lawful()
    ensures m.Hypot(x + u, y + v) <= m.Hypot(x, y) + m.Hypot(u, v)
  {
    var h, g, k := m.Hypot(x, y), m.Hypot(u, v), m.Hypot(x + u, y + v);
    assert m.HypotLaw(x, y) && m.HypotLaw(u, v) && m.HypotLaw(x + u, y + v);
    DotBound(x, y, u, v, h, g);
    var d := x * u + y * v;
    assert k * k == h * h + g * g + 2.0 * d by {
      assert (x + u) * (x + u) == x * x + 2.0 * (x * u) + u * u;
      assert (y + v) * (y + v) == y * y + 2.0 * (y * v) + v * v;
    }
    assert (h + g) * (h + g) == h * h + 2.0 * (h * g) + g * g;
    SquareLeq(k, h + g);
  }

  lemma HypotUnique(m: Math, x: real, y: real, r: real)
    requires m.Lawful() && r >= 0.0 && r * r == x * x + y * y
    ensures m.Hypot(x, y) == r
  {
    assert m.HypotLaw(x, y);
    SquareLeq(m.Hypot(x, y), r);
    SquareLeq(r, m.Hypot(x, y));
  }

  lemma HypotEven(m: Math, x: real, y: real)
    requires m.Lawful()
    ensures m.Hypot(-x, -y) == m.Hypot(x, y)
  {
    assert (-x) * (-x) == x * x && (-y) * (-y) == y * y;
    assert m.HypotLaw(x, y);
    HypotUnique(m, -x, -y, m.Hypot(x, y));
  }

  /** Moving two points by `a` and `b` brings them closer by at most the length of the moves. */
  lemma MovedApart(m: Math, x: real, y: real, aX: real, aY: real, bX: real, bY: real)
    requires m.Lawful()
    ensures m.Hypot((x + aX) - bX, (y + aY) - bY) >= m.Hypot(x, y) - m.Hypot(aX, aY) - m.Hypot(bX, bY)
  {
    var px, py := (x + aX) - bX, (y + aY) - bY;
    Triangle(m, px, py, bX, bY);
    Triangle(m, px + bX, py + bY, -aX, -aY);
    HypotEven(m, aX, aY);
    assert px + bX + -aX == x && py + bY + -aY == y;
  }

  lemma HypotAxis(m: Math, x: real)
    requires m.Lawful()
    ensures m.Hypot(x, 0.0) == Abs(x)
  {
    assert Abs(x) * Abs(x) == x * x;
    HypotUnique(m, x, 0.0, Abs(x));
  }

  lemma HypotAxisY(m: Math, y: real)
    requires m.Lawful()
    ensures m.Hypot(0.0, y) == Abs(y)
  {
    assert Abs(y) * Abs(y) == y * y;
    HypotUnique(m, 0.0, y, Abs(y));
  }

  lemma HypotBound(m: Math, x: real, y: real, b: real)
    requires m.Lawful()
    requires Abs(x) <= b && Abs(y) <= b
    ensures m.Hypot(x, y) <= 2.0 * b
  {
    Triangle(m, x, 0.0, 0.0, y);
    HypotAxis(m, x);
    assert x + 0.0 == x && 0.0 + y == y;
    HypotAxisY(m, y);
  }

  lemma PolarSquare(c: real, s: real, r: real)
    requires c * c + s * s == 1.0
    ensures r * r == (c * r) * (c * r) + (s * r) * (s * r)
  {
    assert (c * r) * (c * r) == (c * c) * (r * r) && (s * r) * (s * r) == (s * s) * (r * r);
    assert (c * c) * (r * r) + (s * s) * (r * r) == (c * c + s * s) * (r * r);
  }

  /** A point at angle `a` and distance `r >= 0` is at distance `r`. */
  lemma PolarLength(m: Math, a: real, r: real)
    requires m.Lawful() && r >= 0.0
    ensures m.Hypot(Scaled(m.Cos(a), r), Scaled(m.Sin(a), r)) == r
  {
    var c, s := m.Cos(a), m.Sin(a);
    assert m.UnitLaw(a);
    PolarSquare(c, s, r);
    HypotUnique(m, Scaled(m.Cos(a), r), Scaled(m.Sin(a), r), r);
  }
}
