/**
 The twisted Edwards curve -x^2 + y^2 = 1 + d x^2 y^2 over a prime field that has a
 square root of -1 (sections 5.1 and 5.1.4 of RFC 8032): the addition law is
 complete and closed, and scalar multiplication stays on the curve.
 */
module Edwards {
  import opened PrimeField

  type Point = (int, int)

  const NEUTRAL: Point := (0, 1)

  /** The field, the curve's d, and a square root of -1. */
  datatype Curve = Curve(fp: Field, d: int, im: int)
  {
    predicate OnCurve(p: Point)
    {
      var (x, y) := p;
      fp.F(-x * x + y * y - 1 - d * x * x * y * y) == 0
    }

    /** Both coordinates are residues. */
    predicate Reduced(p: Point)
    {
      0 <= p.0 < fp.p && 0 <= p.1 < fp.p
    }

    /** `_edwards_add` */
    function Add(p: Point, q: Point): (r: Point)
      ensures Reduced(r)
    {
      var (x1, y1) := p;
      var (x2, y2) := q;
      var x3 := fp.F((x1 * y2 + x2 * y1) * fp.Inv(1 + d * x1 * x2 * y1 * y2));
      var y3 := fp.F((y1 * y2 + x1 * x2) * fp.Inv(1 - d * x1 * x2 * y1 * y2));
      (fp.F(x3), fp.F(y3))
    }

    /** `_scalarmult`: double and add, from the top bit down. */
    function ScalarMult(p: Point, n: nat): Point
    {
      if n == 0 then NEUTRAL else
        var half := ScalarMult(p, n / 2);
        var doubled := Add(half, half);
        if n % 2 == 1 then Add(doubled, p) else doubled
    }

    // ----------------------------------------------------- facts about d and i

    ghost predicate NotRootOfD(x: int)
    {
      fp.F(x * x) != fp.F(d)
    }

    /** fp.p is prime, i^2 = -1, and d is not a square. */
    ghost predicate CurveField()
    {
      fp.Prime() && fp.F(im * im) == fp.F(-1) && forall x :: NotRootOfD(x)
    }

    /** A quotient of squares would be a square. */
    lemma QuotientRoot(u: int, v: int)
      requires fp.Prime() && fp.F(v) != 0 && fp.F(u * u) == fp.F(d * (v * v))
      ensures fp.F((u * fp.Inv(v)) * (u * fp.Inv(v))) == fp.F(d)
    {
      var w := fp.Inv(v);
      fp.Inverse(v);
      fp.MulSame(u * u, d * (v * v), w * w, w * w);
      assert (u * u) * (w * w) == (u * w) * (u * w);
      assert (d * (v * v)) * (w * w) == d * ((v * w) * (v * w));
      fp.Small(1);
      fp.MulSame(v * w, 1, v * w, 1);
      fp.MulSame(d, d, (v * w) * (v * w), 1);
    }

    lemma NoSquareQuotient(u: int, v: int)
      requires CurveField() && fp.F(v) != 0
      ensures fp.F(u * u) != fp.F(d * (v * v))
    {
      assert NotRootOfD(u * fp.Inv(v));
      if fp.F(u * u) == fp.F(d * (v * v)) { QuotientRoot(u, v); }
    }

    // ------------------------------------------------------------ completeness

    lemma RegroupProduct(d: int, x1: int, x2: int, y1: int, y2: int)
      ensures d * x1 * x2 * y1 * y2 == d * (x1 * y1) * (x2 * y2)
    {
    }

    /** The curve equation with the squares on one side. */
    lemma CurveEquation(x: int, y: int)
      ensures OnCurve((x, y)) <==> fp.F(y * y - x * x) == fp.F(1 + d * ((x * y) * (x * y)))
    {
      RegroupProduct(d, x, x, y, y);
      assert -x * x + y * y - 1 - d * x * x * y * y == (y * y - x * x) - (1 + d * ((x * y) * (x * y)));
      fp.ZeroDifference(y * y - x * x, 1 + d * ((x * y) * (x * y)));
    }

    lemma SquareOfSum(k: int, i: int, x: int, y: int)
      ensures k * ((i * x + y) * (i * x + y)) == (2 * (i * k * (x * y)) + k * (y * y)) + (k * (x * x)) * (i * i)
    {
      var ix := i * x;
      assert (ix + y) * (ix + y) == ix * ix + 2 * (ix * y) + y * y;
      assert k * (ix * ix + 2 * (ix * y) + y * y) == k * (ix * ix) + 2 * (k * (ix * y)) + k * (y * y);
      assert k * (ix * ix) == (k * (x * x)) * (i * i);
      assert k * (ix * y) == i * k * (x * y);
    }

    lemma LeftExpand(i: int, t: int, x: int, y: int)
      ensures (i * x + t * y) * (i * x + t * y) == (2 * (i * t * (x * y)) + (t * t) * (y * y)) + (x * x) * (i * i)
    {
    }

    /** The same rewriting on both sides: i^2 becomes -1, t^2 becomes 1, and the curve equation is used. */
    lemma Rewrite(a: int, c: int, k: int, xx: int, yy: int, ii: int, tt: int, e: int)
      requires a == (c + tt * (k * yy)) + (k * xx) * ii && fp.F(ii) == fp.F(-1) && fp.F(tt) == fp.F(1)
          && fp.F(yy - xx) == fp.F(e)
      ensures fp.F(a) == fp.F(c + k * e)
    {
      hide Field.F;
      ReplaceSquares(a, c, k * xx, k * yy, ii, tt);
      assert k * (yy - xx) == k * yy - k * xx;
      fp.Substitute(c, k, yy - xx, e);
    }

    lemma ReplaceSquares(a: int, c: int, kx: int, ky: int, ii: int, tt: int)
      requires a == (c + tt * ky) + kx * ii && fp.F(ii) == fp.F(-1) && fp.F(tt) == fp.F(1)
      ensures fp.F(a) == fp.F(c + (ky - kx))
    {
      hide Field.F;
      fp.Substitute(c + tt * ky, kx, ii, -1);
      fp.Substitute(c - kx, ky, tt, 1);
    }

    lemma LeftSquare(i: int, d: int, x: int, y: int, t: int)
      requires fp.F(i * i) == fp.F(-1) && fp.F(t * t) == fp.F(1)
          && fp.F(y * y - x * x) == fp.F(1 + d * ((x * y) * (x * y)))
      ensures fp.F((i * x + t * y) * (i * x + t * y)) == fp.F(2 * (i * t * (x * y)) + 1 + d * ((x * y) * (x * y)))
    {
      hide Field.F;
      LeftExpand(i, t, x, y);
      Rewrite((i * x + t * y) * (i * x + t * y), 2 * (i * t * (x * y)), 1, x * x, y * y, i * i, t * t,
              1 + d * ((x * y) * (x * y)));
    }

    lemma ScaledSquare(i: int, d: int, k: int, x: int, y: int)
      requires fp.F(i * i) == fp.F(-1) && fp.F(y * y - x * x) == fp.F(1 + d * ((x * y) * (x * y)))
      ensures fp.F(k * ((i * x + y) * (i * x + y))) == fp.F(2 * (i * k * (x * y)) + k * (1 + d * ((x * y) * (x * y))))
    {
      hide Field.F;
      SquareOfSum(k, i, x, y);
      Rewrite(k * ((i * x + y) * (i * x + y)), 2 * (i * k * (x * y)), k, x * x, y * y, i * i, 1,
              1 + d * ((x * y) * (x * y)));
    }

    lemma TSquared(d: int, q: int, r: int, t: int)
      requires t == d * q * r
      ensures (d * (q * q)) * (1 + d * (r * r)) == d * (q * q) + t * t
      ensures forall i :: i * (d * (q * q)) * r == i * t * q
    {
    }

    lemma PullSquare(d: int, q: int, b: int)
      ensures d * ((q * b) * (q * b)) == (d * (q * q)) * (b * b)
    {
    }

    lemma RightSquare(i: int, d: int, q: int, x: int, y: int, t: int)
      requires fp.F(i * i) == fp.F(-1) && fp.F(t * t) == fp.F(1)
          && fp.F(y * y - x * x) == fp.F(1 + d * ((x * y) * (x * y)))
      requires t == d * q * (x * y)
      ensures fp.F(d * ((q * (i * x + y)) * (q * (i * x + y)))) == fp.F(2 * (i * t * q) + 1 + d * (q * q))
    {
      hide Field.F;
      var k, r := d * (q * q), x * y;
      PullSquare(d, q, i * x + y);
      ScaledSquare(i, d, k, x, y);
      TSquared(d, q, r, t);
      fp.Substitute(2 * (i * t * q) + k, 1, t * t, 1);
    }

    /** The product d x1 x2 y1 y2 that the addition formulas divide by. */
    function Twist(p: Point, q: Point): int
    {
      d * p.0 * q.0 * p.1 * q.1
    }

    lemma TwistOfZero(p: Point, q: Point)
      requires fp.F(p.0 * p.1) == 0 || fp.F(q.1) == 0
      ensures fp.F(Twist(p, q)) == 0
    {
      fp.Small(0);
      var (x1, y1) := p;
      var (x2, y2) := q;
      RegroupProduct(d, x1, x2, y1, y2);
      if fp.F(x1 * y1) == 0 {
        fp.MulSame(d * (x2 * y2), d * (x2 * y2), x1 * y1, 0);
        assert Twist(p, q) == (d * (x2 * y2)) * (x1 * y1);
      } else {
        fp.MulSame((d * (x1 * y1)) * x2, (d * (x1 * y1)) * x2, y2, 0);
        assert Twist(p, q) == ((d * (x1 * y1)) * x2) * y2;
      }
    }

    lemma NonZeroTwist(p: Point, q: Point)
      requires fp.F(Twist(p, q) * Twist(p, q)) == fp.F(1)
      ensures fp.F(p.0 * p.1) != 0 && fp.F(q.1) != 0
    {
      var t := Twist(p, q);
      fp.Small(0);
      fp.Small(1);
      if fp.F(p.0 * p.1) == 0 || fp.F(q.1) == 0 {
        TwistOfZero(p, q);
        fp.MulSame(t, 0, t, 0);
      }
    }

    lemma RootForced(p: Point, q: Point)
      requires CurveField() && OnCurve(p) && OnCurve(q) && fp.F(Twist(p, q) * Twist(p, q)) == fp.F(1)
      ensures fp.F(im * q.0 + q.1) == 0
    {
      hide Field.F;
      var (x1, y1) := p;
      var (x2, y2) := q;
      var t := Twist(p, q);
      CurveEquation(x1, y1);
      CurveEquation(x2, y2);
      RegroupProduct(d, x1, x2, y1, y2);
      LeftSquare(im, d, x1, y1, t);
      RightSquare(im, d, x1 * y1, x2, y2, t);
      NonZeroTwist(p, q);
      fp.NoZeroDivisors(x1 * y1, im * x2 + y2);
      if fp.F(im * x2 + y2) != 0 {
        NoSquareQuotient(im * x1 + t * y1, x1 * y1 * (im * x2 + y2));
      }
    }

    lemma Mirror(x: int, y: int)
      requires OnCurve((x, y))
      ensures OnCurve((x, -y))
    {
      hide Field.F;
      assert (x * -y) * (x * -y) == (x * y) * (x * y);
      assert -y * -y == y * y;
      CurveEquation(x, y);
      CurveEquation(x, -y);
    }

    lemma HalfOfSum(a: int, y: int)
      requires fp.Prime() && fp.F(a + y) == 0 && fp.F(a - y) == 0
      ensures fp.F(y) == 0
    {
      fp.AddSame(a + y, 0, a - y, 0);
      assert (a + y) - (a - y) == 2 * y;
      fp.Small(0);
      fp.Small(2);
      fp.NoZeroDivisors(2, y);
    }

    lemma TwistIsNoUnit(p: Point, q: Point)
      requires CurveField() && OnCurve(p) && OnCurve(q)
      ensures fp.F(Twist(p, q) * Twist(p, q)) != fp.F(1)
    {
      var m := (q.0, -q.1);
      Mirror(q.0, q.1);
      assert Twist(p, m) == -Twist(p, q);
      assert Twist(p, m) * Twist(p, m) == Twist(p, q) * Twist(p, q);
      if fp.F(Twist(p, q) * Twist(p, q)) == fp.F(1) {
        RootForced(p, q);
        RootForced(p, m);
        HalfOfSum(im * q.0, q.1);
        NonZeroTwist(p, q);
      }
    }

    /** Completeness: neither denominator of the addition formulas vanishes on the curve. */
    lemma DenominatorsNonZero(p: Point, q: Point)
      requires CurveField() && OnCurve(p) && OnCurve(q)
      ensures fp.F(1 + d * p.0 * q.0 * p.1 * q.1) != 0
      ensures fp.F(1 - d * p.0 * q.0 * p.1 * q.1) != 0
    {
      var t := Twist(p, q);
      TwistIsNoUnit(p, q);
      fp.Small(0);
      if fp.F(1 + t) == 0 {
        fp.AddSame(1 + t, 0, 1, 1);
        fp.MulSame(t, -1, t, -1);
      }
      if fp.F(1 - t) == 0 {
        fp.AddSame(1, 1, 1 - t, 0);
        fp.MulSame(t, 1, t, 1);
      }
    }

    // ----------------------------------------------------------------- closure

    /** Numerators of the addition formulas. */
    function NumX(p: Point, q: Point): int
    {
      p.0 * q.1 + q.0 * p.1
    }

    function NumY(p: Point, q: Point): int
    {
      p.1 * q.1 + p.0 * q.0
    }

    /** Difference and sum of the squared coordinates. */
    function Gap(p: Point): int
    {
      p.1 * p.1 - p.0 * p.0
    }

    function Norm(p: Point): int
    {
      p.1 * p.1 + p.0 * p.0
    }

    lemma GapOfSum(x1: int, y1: int, x2: int, y2: int)
      ensures (y1 * y2 + x1 * x2) * (y1 * y2 + x1 * x2) - (x1 * y2 + x2 * y1) * (x1 * y2 + x2 * y1)
           == (y1 * y1 - x1 * x1) * (y2 * y2 - x2 * x2)
    {
    }

    lemma NormOfSum(x1: int, y1: int, x2: int, y2: int)
      ensures (y1 * y2 + x1 * x2) * (y1 * y2 + x1 * x2) + (x1 * y2 + x2 * y1) * (x1 * y2 + x2 * y1)
           == (y1 * y1 + x1 * x1) * (y2 * y2 + x2 * x2) + 4 * ((x1 * y1) * (x2 * y2))
    {
    }

    lemma ProductOfSum(x1: int, y1: int, x2: int, y2: int)
      ensures (x1 * y2 + x2 * y1) * (y1 * y2 + x1 * x2)
           == (x1 * y1) * (y2 * y2 + x2 * x2) + (x2 * y2) * (y1 * y1 + x1 * x1)
    {
    }

    lemma NormSquared(x: int, y: int)
      ensures (y * y + x * x) * (y * y + x * x) == (y * y - x * x) * (y * y - x * x) + 4 * ((x * y) * (x * y))
    {
    }

    lemma SquareOfSums(a: int, q: int, b: int, n: int)
      ensures (a * q + b * n) * (a * q + b * n) == (a * a) * (q * q) + (b * b) * (n * n) + 2 * ((a * b) * (n * q))
    {
    }

    lemma WeightedGap(xx: int, yy: int, t: int)
      ensures yy * ((1 + t) * (1 + t)) - xx * ((1 - t) * (1 - t)) == (1 + t * t) * (yy - xx) + 2 * t * (yy + xx)
    {
      assert (1 + t) * (1 + t) == 1 + 2 * t + t * t;
      assert (1 - t) * (1 - t) == 1 - 2 * t + t * t;
    }

    /** Both sides agree once each gap is replaced by 1 + d (x y)^2; here a = d (x1 y1)^2 and b = d (x2 y2)^2. */
    lemma SidesAgree(a: int, b: int, tt: int, u: int)
      requires a * b == tt
      ensures (1 + tt) * ((1 + a) * (1 + b)) + u
           == (1 - tt) * (1 - tt) + a * ((1 + b) * (1 + b)) + b * ((1 + a) * (1 + a)) + u
    {
      assert (1 + a) * (1 + b) == 1 + a + b + tt;
      assert a * ((1 + b) * (1 + b)) == a + 2 * tt + tt * b by {
        assert a * (b * b) == (a * b) * b;
      }
      assert b * ((1 + a) * (1 + a)) == b + 2 * tt + tt * a by {
        assert b * (a * a) == (a * b) * a;
      }
      assert (1 + tt) * (1 + a + b + tt) == 1 + a + b + 2 * tt + tt * a + tt * b + tt * tt;
      assert (1 - tt) * (1 - tt) == 1 - 2 * tt + tt * tt;
    }

    lemma LeftSide(g1: int, g2: int, a: int, b: int, n: int, xx: int, yy: int, t: int, m: int)
      requires yy - xx == g1 * g2 && yy + xx == n + 4 * m && fp.F(g1) == fp.F(1 + a) && fp.F(g2) == fp.F(1 + b)
      ensures fp.F(yy * ((1 + t) * (1 + t)) - xx * ((1 - t) * (1 - t)))
           == fp.F((1 + t * t) * ((1 + a) * (1 + b)) + (2 * (t * n) + 8 * (t * m)))
    {
      hide Field.F;
      WeightedGap(xx, yy, t);
      fp.MulSame(g1, 1 + a, g2, 1 + b);
      var tail := 2 * (t * n) + 8 * (t * m);
      assert 2 * t * (n + 4 * m) == tail;
      fp.Substitute(tail, 1 + t * t, g1 * g2, (1 + a) * (1 + b));
    }

    lemma RightExpand(d: int, m1: int, m2: int, q1: int, q2: int, t: int)
      requires t == d * m1 * m2
      ensures d * ((m1 * q2 + m2 * q1) * (m1 * q2 + m2 * q1))
           == (d * (m1 * m1)) * (q2 * q2) + (d * (m2 * m2)) * (q1 * q1) + 2 * (t * (q1 * q2))
    {
      SquareOfSums(m1, q2, m2, q1);
      var s := (m1 * m1) * (q2 * q2) + (m2 * m2) * (q1 * q1) + 2 * ((m1 * m2) * (q1 * q2));
      Distribute(d, (m1 * m1) * (q2 * q2), (m2 * m2) * (q1 * q1), 2 * ((m1 * m2) * (q1 * q2)));
    }

    lemma Distribute(d: int, a: int, b: int, c: int)
      ensures d * (a + b + c) == d * a + d * b + d * c
    {
    }

    lemma RightSide(a: int, b: int, g1: int, g2: int, k1: int, k2: int, n: int, r: int, t: int, m: int)
      requires fp.F(g1) == fp.F(1 + a) && fp.F(g2) == fp.F(1 + b)
      requires a * k2 == t * m && b * k1 == t * m
      ensures fp.F(r + a * (g2 * g2 + 4 * k2) + b * (g1 * g1 + 4 * k1) + 2 * (t * n))
           == fp.F(r + a * ((1 + b) * (1 + b)) + b * ((1 + a) * (1 + a)) + (2 * (t * n) + 8 * (t * m)))
    {
      hide Field.F;
      fp.MulSame(g1, 1 + a, g1, 1 + a);
      fp.MulSame(g2, 1 + b, g2, 1 + b);
      var tail := r + 2 * (t * n) + 8 * (t * m);
      RightFold(a, b, g1 * g1, g2 * g2, k1, k2, t * m);
      fp.Substitute(tail + b * (g1 * g1), a, g2 * g2, (1 + b) * (1 + b));
      fp.Substitute(tail + a * ((1 + b) * (1 + b)), b, g1 * g1, (1 + a) * (1 + a));
    }

    lemma RightFold(a: int, b: int, h1: int, h2: int, k1: int, k2: int, u: int)
      requires a * k2 == u && b * k1 == u
      ensures a * (h2 + 4 * k2) + b * (h1 + 4 * k1) == a * h2 + b * h1 + 8 * u
    {
    }

    lemma TwistProducts(d: int, m1: int, m2: int, t: int)
      requires t == d * m1 * m2
      ensures (d * (m1 * m1)) * (m2 * m2) == t * (m1 * m2)
      ensures (d * (m2 * m2)) * (m1 * m1) == t * (m1 * m2)
      ensures (d * (m1 * m1)) * (d * (m2 * m2)) == t * t
      ensures (1 + t) * (1 - t) == 1 - t * t
    {
    }

    /** The curve equation of the sum, before dividing by the denominators. */
    lemma ProjectiveClosure(p: Point, q: Point)
      requires OnCurve(p) && OnCurve(q)
      ensures var (t, x, y) := (Twist(p, q), NumX(p, q), NumY(p, q));
        fp.F((y * y) * ((1 + t) * (1 + t)) - (x * x) * ((1 - t) * (1 - t)))
        == fp.F(((1 + t) * (1 - t)) * ((1 + t) * (1 - t)) + d * ((x * y) * (x * y)))
    {
      hide Field.F;
      var ((x1, y1), (x2, y2)) := (p, q);
      var (m1, m2) := (x1 * y1, x2 * y2);
      var (a, b) := (d * (m1 * m1), d * (m2 * m2));
      var (t, x, y, m, n) := (Twist(p, q), NumX(p, q), NumY(p, q), m1 * m2, Norm(p) * Norm(q));
      var u := 2 * (t * n) + 8 * (t * m);
      RegroupProduct(d, x1, x2, y1, y2);
      CurveEquation(x1, y1);
      CurveEquation(x2, y2);
      TwistProducts(d, m1, m2, t);
      GapOfSum(x1, y1, x2, y2);
      NormOfSum(x1, y1, x2, y2);
      LeftSide(Gap(p), Gap(q), a, b, n, x * x, y * y, t, m);
      SidesAgree(a, b, t * t, u);
      ProductOfSum(x1, y1, x2, y2);
      RightExpand(d, m1, m2, Norm(p), Norm(q), t);
      NormSquared(x1, y1);
      NormSquared(x2, y2);
      RightSide(a, b, Gap(p), Gap(q), m1 * m1, m2 * m2, n, (1 - t * t) * (1 - t * t), t, m);
    }

    lemma ScaleLeft(x: int, y: int, e: int, f: int, i: int, j: int)
      ensures ((y * y) * (e * e) - (x * x) * (f * f)) * ((i * j) * (i * j))
           == ((y * j) * (e * i)) * ((y * j) * (e * i)) - ((x * i) * (f * j)) * ((x * i) * (f * j))
    {
      ScaleSquare(y, e, i, j);
      ScaleSquare(x, f, j, i);
      assert (i * j) * (i * j) == (j * i) * (j * i);
    }

    lemma ScaleSquare(y: int, e: int, i: int, j: int)
      ensures (y * y) * (e * e) * ((i * j) * (i * j)) == ((y * j) * (e * i)) * ((y * j) * (e * i))
    {
      var (ye, ij) := (y * e, i * j);
      assert (y * y) * (e * e) == ye * ye;
      assert (y * j) * (e * i) == ye * ij;
      assert (ye * ye) * (ij * ij) == (ye * ij) * (ye * ij);
    }

    lemma ScaleRight(d: int, x: int, y: int, e: int, f: int, i: int, j: int)
      ensures ((e * f) * (e * f) + d * ((x * y) * (x * y))) * ((i * j) * (i * j))
           == ((e * i) * (f * j)) * ((e * i) * (f * j)) + d * (((x * i) * (y * j)) * ((x * i) * (y * j)))
    {
      var (ef, xy, ij) := (e * f, x * y, i * j);
      assert (e * i) * (f * j) == ef * ij;
      assert (x * i) * (y * j) == xy * ij;
      assert (ef * ef + d * (xy * xy)) * (ij * ij) == (ef * ij) * (ef * ij) + d * ((xy * ij) * (xy * ij));
    }

    /** The affine equation from the projective one. */
    lemma Affine(x: int, y: int, e: int, f: int, i: int, j: int)
      requires fp.F(e * i) == fp.F(1) && fp.F(f * j) == fp.F(1)
      requires fp.F((y * y) * (e * e) - (x * x) * (f * f)) == fp.F((e * f) * (e * f) + d * ((x * y) * (x * y)))
      ensures fp.F((y * j) * (y * j) - (x * i) * (x * i)) == fp.F(1 + d * (((x * i) * (y * j)) * ((x * i) * (y * j))))
    {
      hide Field.F;
      var s := (i * j) * (i * j);
      fp.MulSame((y * y) * (e * e) - (x * x) * (f * f), (e * f) * (e * f) + d * ((x * y) * (x * y)), s, s);
      ScaleLeft(x, y, e, f, i, j);
      ScaleRight(d, x, y, e, f, i, j);
      AffineCore(x * i, y * j, e * i, f * j);
    }

    lemma AffineCore(u: int, v: int, a: int, b: int)
      requires fp.F(a) == fp.F(1) && fp.F(b) == fp.F(1)
      requires fp.F((v * a) * (v * a) - (u * b) * (u * b)) == fp.F((a * b) * (a * b) + d * ((u * v) * (u * v)))
      ensures fp.F(v * v - u * u) == fp.F(1 + d * ((u * v) * (u * v)))
    {
      hide Field.F;
      fp.MulSame(a, 1, b, 1);
      fp.MulSame(v, v, a, 1);
      fp.MulSame(u, u, b, 1);
      fp.MulSame(v * a, v, v * a, v);
      fp.MulSame(u * b, u, u * b, u);
      fp.AddSame((v * a) * (v * a), v * v, (u * b) * (u * b), u * u);
      fp.MulSame(a * b, 1, a * b, 1);
      fp.AddSame((a * b) * (a * b), 1, d * ((u * v) * (u * v)), d * ((u * v) * (u * v)));
    }

    lemma OnCurveSame(p: Point, q: Point)
      requires fp.F(p.0) == fp.F(q.0) && fp.F(p.1) == fp.F(q.1) && OnCurve(p)
      ensures OnCurve(q)
    {
      hide Field.F;
      var ((x, y), (u, v)) := (p, q);
      CurveEquation(x, y);
      CurveEquation(u, v);
      fp.MulSame(x, u, x, u);
      fp.MulSame(y, v, y, v);
      fp.MulSame(x, u, y, v);
      fp.MulSame(x * y, u * v, x * y, u * v);
      fp.AddSame(y * y, v * v, x * x, u * u);
      fp.Substitute(1, d, (x * y) * (x * y), (u * v) * (u * v));
    }

    /** Closure: the sum of two points of the curve is on the curve. */
    lemma AddOnCurve(p: Point, q: Point)
      requires CurveField() && OnCurve(p) && OnCurve(q)
      ensures OnCurve(Add(p, q))
    {
      var (t, x, y) := (Twist(p, q), NumX(p, q), NumY(p, q));
      var (i, j) := (fp.Inv(1 + t), fp.Inv(1 - t));
      DenominatorsNonZero(p, q);
      fp.Inverse(1 + t);
      fp.Inverse(1 - t);
      fp.Small(1);
      ProjectiveClosure(p, q);
      Affine(x, y, 1 + t, 1 - t, i, j);
      CurveEquation(x * i, y * j);
      AddCoordinates(p, q);
      OnCurveSame((x * i, y * j), Add(p, q));
    }

    lemma AddCoordinates(p: Point, q: Point)
      ensures fp.F(Add(p, q).0) == fp.F(NumX(p, q) * fp.Inv(1 + Twist(p, q)))
      ensures fp.F(Add(p, q).1) == fp.F(NumY(p, q) * fp.Inv(1 - Twist(p, q)))
    {
      fp.Small(NumX(p, q) * fp.Inv(1 + Twist(p, q)));
      fp.Small(NumY(p, q) * fp.Inv(1 - Twist(p, q)));
    }

    lemma NeutralOnCurve()
      ensures OnCurve(NEUTRAL)
    {
      fp.Small(0);
    }

    /** Every multiple of a point of the curve is on the curve. */
    lemma {:induction false} ScalarMultOnCurve(p: Point, n: nat)
      requires CurveField() && OnCurve(p)
      ensures OnCurve(ScalarMult(p, n)) && Reduced(ScalarMult(p, n))
    {
      if n == 0 {
        NeutralOnCurve();
      } else {
        ScalarMultOnCurve(p, n / 2);
        var half := ScalarMult(p, n / 2);
        AddOnCurve(half, half);
        if n % 2 == 1 { AddOnCurve(Add(half, half), p); }
      }
    }
  }
}
