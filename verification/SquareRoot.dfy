/**
 `_xrecover`: the x coordinate for a given y. The modulus is 5 (mod 8), so one power and at
 most one multiplication by i find a square root whenever there is one.
 */
module SquareRoot {
  import opened PrimeField
  import opened Edwards

  /** The square an x coordinate over y must have. */
  function XSquared(c: Curve, y: int): int
  {
    (y * y - 1) * c.fp.Inv(c.d * y * y + 1)
  }

  /** The root `_xrecover` settles on before choosing the even one. */
  function Candidate(c: Curve, xx: int): (x: int)
    ensures 0 <= x < c.fp.p
  {
    var x := c.fp.PowMod(xx, (c.fp.p + 3) / 8);
    if c.fp.F(x * x - xx) != 0 then c.fp.F(x * c.im) else x
  }

  function EvenOf(c: Curve, x: int): int
  {
    if x % 2 != 0 then c.fp.p - x else x
  }

  // ------------------------------------------------------------ square roots

  /** The modulus is eight times this, plus 5. */
  function Eighth(c: Curve): nat
  {
    (c.fp.p - 5) / 8
  }

  lemma Exponents(c: Curve)
    ensures c.fp.p == 8 * Eighth(c) + 5
    ensures (c.fp.p + 3) / 8 == Eighth(c) + 1 && (c.fp.p - 1) / 4 == 2 * Eighth(c) + 1
        && c.fp.p - 1 == 2 * (4 * Eighth(c) + 2)
  {
  }

  /** The square of the first candidate is the wanted square times a fourth root of one. */
  lemma CandidateSquared(c: Curve, a: int)
    ensures c.fp.Pow(a, Eighth(c) + 1) * c.fp.Pow(a, Eighth(c) + 1) == c.fp.Pow(a, 2 * Eighth(c) + 1) * a
  {
    c.fp.PowSum(a, Eighth(c) + 1, Eighth(c) + 1);
    c.fp.PowSum(a, 2 * Eighth(c) + 1, 1);
    assert c.fp.Pow(a, 1) == a * c.fp.Pow(a, 0) == a;
    assert (Eighth(c) + 1) + (Eighth(c) + 1) == (2 * Eighth(c) + 1) + 1;
  }

  lemma QuarterPower(c: Curve, a: int, z: int)
    requires c.fp.Prime() && c.fp.F(z * z) == c.fp.F(a) && c.fp.F(z) != 0
    ensures c.fp.F(c.fp.Pow(a, 2 * Eighth(c) + 1)) == c.fp.F(1) || c.fp.F(c.fp.Pow(a, 2 * Eighth(c) + 1)) == c.fp.F(-1)
  {
    hide Field.F;
    var h := c.fp.Pow(a, 2 * Eighth(c) + 1);
    var half := 4 * Eighth(c) + 2;
    Exponents(c);
    c.fp.PowSum(a, 2 * Eighth(c) + 1, 2 * Eighth(c) + 1);
    assert h * h == c.fp.Pow(a, half);
    c.fp.PowSame(z * z, a, half);
    c.fp.PowProduct(z, z, half);
    c.fp.PowSum(z, half, half);
    assert c.fp.Pow(z * z, half) == c.fp.Pow(z, c.fp.p - 1);
    assert c.fp.Fermat(z);
    c.fp.Small(1);
    assert c.fp.F(h * h) == c.fp.F(1 * 1);
    c.fp.SquareRoots(h, 1);
  }

  lemma ScaleSame(c: Curve, h: int, h': int, a: int)
    requires c.fp.F(h) == c.fp.F(h')
    ensures c.fp.F(h * a) == c.fp.F(h' * a)
  {
    c.fp.MulSame(h, h', a, a);
  }

  lemma ResidueSquared(c: Curve, a: int)
    ensures c.fp.F(c.fp.F(a) * c.fp.F(a)) == c.fp.F(a * a)
  {
    c.fp.Small(a);
    c.fp.MulSame(c.fp.F(a), a, c.fp.F(a), a);
  }

  lemma TurnSquare(c: Curve, x: int, a: int)
    requires c.CurveField() && c.fp.F(x * x) == c.fp.F(-1 * a)
    ensures c.fp.F((x * c.im) * (x * c.im)) == c.fp.F(a)
  {
    hide Field.F;
    c.fp.Interchange(x, c.im, x, c.im);
    c.fp.MulSame(x * x, -1 * a, c.im * c.im, -1);
    assert (-1 * a) * -1 == a;
  }

  /** `_xrecover` finds a root of every square. */
  lemma RootFound(c: Curve, a: int, z: int)
    requires c.CurveField() && c.fp.F(z * z) == c.fp.F(a)
    ensures c.fp.F(Candidate(c, a) * Candidate(c, a)) == c.fp.F(a)
  {
    hide Field.F;
    var h := c.fp.Pow(a, 2 * Eighth(c) + 1);
    var raw := c.fp.Pow(a, Eighth(c) + 1);
    var x := c.fp.F(raw);
    Exponents(c);
    assert x == c.fp.PowMod(a, (c.fp.p + 3) / 8);
    CandidateSquared(c, a);
    ResidueSquared(c, raw);
    c.fp.ZeroDifference(x * x, a);
    assert c.fp.F(x * x) == c.fp.F(h * a);
    if c.fp.F(x * x) != c.fp.F(a) {
      NonResidueCase(c, a, z, h, x);
      ResidueSquared(c, x * c.im);
    }
  }

  lemma NonResidueCase(c: Curve, a: int, z: int, h: int, x: int)
    requires c.CurveField() && c.fp.F(z * z) == c.fp.F(a) && h == c.fp.Pow(a, 2 * Eighth(c) + 1)
    requires c.fp.F(x * x) == c.fp.F(h * a) && c.fp.F(x * x) != c.fp.F(a)
    ensures c.fp.F((x * c.im) * (x * c.im)) == c.fp.F(a)
  {
    hide Field.F;
    if c.fp.F(z) == c.fp.F(0) {
      c.fp.MulSame(z, 0, z, 0);
      c.fp.MulSame(h, h, a, 0);
    } else {
      c.fp.Small(0);
      QuarterPower(c, a, z);
      if c.fp.F(h) == c.fp.F(1) { ScaleSame(c, h, 1, a); } else { ScaleSame(c, h, -1, a); }
      TurnSquare(c, x, a);
    }
  }

  lemma NegatedSquare(c: Curve, x: int)
    ensures c.fp.F((c.fp.p - x) * (c.fp.p - x)) == c.fp.F(x * x)
  {
    hide Field.F;
    var p: int := c.fp.p;
    assert (p - x) * (p - x) == x * x + (p - 2 * x) * p;
    c.fp.SameByMultiple((p - x) * (p - x), x * x, p - 2 * x);
  }

  lemma EvenOfRoot(c: Curve, x: int)
    requires 0 <= x < c.fp.p
    ensures 0 <= EvenOf(c, x) < c.fp.p && EvenOf(c, x) % 2 == 0 && c.fp.F(EvenOf(c, x) * EvenOf(c, x)) == c.fp.F(x * x)
  {
    hide Field.F;
    NegatedSquare(c, x);
    OddModulus(c);
    if x % 2 != 0 { OddMinusOdd(c.fp.p, x); }
  }

  lemma OddModulus(c: Curve)
    ensures c.fp.p % 2 == 1
  {
    OddFromEight(c.fp.p);
  }

  lemma OddMinusOdd(q: int, x: int)
    requires q % 2 == 1 && x % 2 == 1
    ensures (q - x) % 2 == 0
  {
  }

  lemma OddFromEight(q: int)
    requires q % 8 == 5
    ensures q % 2 == 1
  {
    assert q == 2 * (4 * (q / 8) + 2) + 1;
  }

  // ------------------------------------------------------------ the method

  predicate IsRoot(c: Curve, x: int, a: int)
  {
    c.fp.F(x * x) == c.fp.F(a)
  }

  ghost predicate HasRoot(c: Curve, a: int)
  {
    exists z :: IsRoot(c, z, a)
  }

  /** An even residue is the only even root of its square. */
  lemma EvenRootUnique(c: Curve, x: int, y: int)
    requires c.CurveField() && 0 <= x < c.fp.p && 0 <= y < c.fp.p && x % 2 == 0 && y % 2 == 0
    requires c.fp.F(x * x) == c.fp.F(y * y)
    ensures x == y
  {
    hide Field.F;
    c.fp.Small(x);
    c.fp.Small(y);
    c.fp.SquareRoots(x, y);
    if y != 0 && x != y {
      NegatedResidue(c, y);
      OddModulus(c);
      OddMinusEven(c.fp.p, y);
    }
  }

  lemma OddMinusEven(q: int, y: int)
    requires q % 2 == 1 && y % 2 == 0
    ensures (q - y) % 2 == 1
  {
  }

  lemma NegatedResidue(c: Curve, y: int)
    requires 0 < y < c.fp.p
    ensures c.fp.F(-y) == c.fp.p - y
  {
    hide Field.F;
    c.fp.Small(c.fp.p - y);
    c.fp.SameByMultiple(c.fp.p - y, -y, 1);
  }

  /** `_xrecover`: an even residue, and the only even root of the wanted square whenever that has a root. */
  method Xrecover(c: Curve, y: int) returns (x: int)
    ensures 0 <= x < c.fp.p && x % 2 == 0
    ensures c.CurveField() && HasRoot(c, XSquared(c, y)) ==>
      && IsRoot(c, x, XSquared(c, y))
      && forall z :: 0 <= z < c.fp.p && z % 2 == 0 && IsRoot(c, z, XSquared(c, y)) ==> z == x
  {
    var xx := (y * y - 1) * c.fp.Inv(c.d * y * y + 1);
    x := c.fp.PowMod(xx, (c.fp.p + 3) / 8);
    if (x * x - xx) % c.fp.p != 0 {
      x := (x * c.im) % c.fp.p;
    }
    ghost var found := x;
    if x % 2 != 0 {
      x := c.fp.p - x;
    }
    EvenOfRoot(c, found);
    if c.CurveField() && HasRoot(c, xx) {
      var z :| IsRoot(c, z, xx);
      RootFound(c, xx, z);
      forall z | 0 <= z < c.fp.p && z % 2 == 0 && IsRoot(c, z, xx) ensures z == x {
        EvenRootUnique(c, z, x);
      }
    }
  }
}
