/**
 Arithmetic modulo a prime p with p = 5 (mod 8). Two integers are the same field
 element when `F` maps them to one residue; the lemmas below let products, sums,
 powers and inverses be rewritten under `F`.
 */
module PrimeField {

  type Modulus = p: int | p > 4 && p % 8 == 5 witness 5

  datatype Field = Field(p: Modulus)
  {
    /** Python's `a % _P`: the residue in 0..p-1, also for negative a. */
    function F(a: int): (r: int)
      ensures 0 <= r < p
    {
      a % p
    }

    function Pow(b: int, e: nat): int
    {
      if e == 0 then 1 else b * Pow(b, e - 1)
    }

    /** `pow(b, e, _P)` */
    function PowMod(b: int, e: nat): (r: int)
      ensures 0 <= r < p
    {
      F(Pow(b, e))
    }

    /** `_inv`: Fermat inversion. */
    function Inv(x: int): (r: int)
      ensures 0 <= r < p
    {
      PowMod(x, p - 2)
    }

    // ---------------------------------------------------------------- residues

    lemma Unique(a: int, q: int, r: int)
      requires a == q * p + r && 0 <= r < p
      ensures F(a) == r
    {
      var s := a / p;
      assert a == s * p + F(a);
      assert (q - s) * p == F(a) - r;
      SmallMultiple(q - s);
    }

    lemma SmallMultiple(k: int)
      requires -1 * p < k * p < p
      ensures k == 0
    {
    }

    lemma SameByMultiple(a: int, b: int, k: int)
      requires a == b + k * p
      ensures F(a) == F(b)
    {
      Unique(a, b / p + k, F(b));
    }

    lemma Multiple(a: int, b: int) returns (k: int)
      requires F(a) == F(b)
      ensures a == b + k * p
    {
      k := a / p - b / p;
    }

    lemma Small(a: int)
      ensures 0 <= a < p ==> F(a) == a
      ensures F(F(a)) == F(a)
    {
      Unique(F(a), 0, F(a));
      if 0 <= a < p { Unique(a, 0, a); }
    }

    lemma AddSame(a: int, a': int, b: int, b': int)
      requires F(a) == F(a') && F(b) == F(b')
      ensures F(a + b) == F(a' + b')
      ensures F(a - b) == F(a' - b')
    {
      var k := Multiple(a, a');
      var l := Multiple(b, b');
      SameByMultiple(a + b, a' + b', k + l);
      SameByMultiple(a - b, a' - b', k - l);
    }

    lemma MulSame(a: int, a': int, b: int, b': int)
      requires F(a) == F(a') && F(b) == F(b')
      ensures F(a * b) == F(a' * b')
    {
      var k := Multiple(a, a');
      var l := Multiple(b, b');
      assert a * b == a' * b' + (k * b + a' * l) * p;
      SameByMultiple(a * b, a' * b', k * b + a' * l);
    }

    /** Inside a sum, a factor may be replaced by one with the same residue. */
    lemma Substitute(rest: int, k: int, a: int, a': int)
      requires F(a) == F(a')
      ensures F(rest + k * a) == F(rest + k * a')
    {
      MulSame(k, k, a, a');
      AddSame(rest, rest, k * a, k * a');
    }

    lemma ZeroDifference(a: int, b: int)
      ensures F(a - b) == 0 <==> F(a) == F(b)
    {
      Small(0);
      if F(a - b) == 0 {
        AddSame(a - b, 0, b, b);
      }
      if F(a) == F(b) {
        AddSame(a, b, b, b);
      }
    }

    // ------------------------------------------------------------------ powers

    lemma {:induction false} PowSame(a: int, b: int, e: nat)
      requires F(a) == F(b)
      ensures F(Pow(a, e)) == F(Pow(b, e))
    {
      if e > 0 {
        PowSame(a, b, e - 1);
        MulSame(a, b, Pow(a, e - 1), Pow(b, e - 1));
      }
    }

    lemma {:induction false} PowSum(b: int, m: nat, n: nat)
      ensures Pow(b, m + n) == Pow(b, m) * Pow(b, n)
    {
      if m > 0 {
        PowSum(b, m - 1, n);
        assert b * (Pow(b, m - 1) * Pow(b, n)) == (b * Pow(b, m - 1)) * Pow(b, n);
      }
    }

    lemma {:induction false} PowProduct(a: int, b: int, e: nat)
      ensures Pow(a * b, e) == Pow(a, e) * Pow(b, e)
    {
      if e > 0 {
        PowProduct(a, b, e - 1);
        Interchange(a, b, Pow(a, e - 1), Pow(b, e - 1));
      }
    }

    lemma Interchange(a: int, b: int, c: int, d: int)
      ensures (a * b) * (c * d) == (a * c) * (b * d)
    {
      assert (a * b) * (c * d) == a * (b * c) * d;
      assert (a * c) * (b * d) == a * (c * b) * d;
    }

    lemma {:induction false} PowOne(e: nat)
      ensures Pow(1, e) == 1
    {
      if e > 0 { PowOne(e - 1); }
    }

    lemma {:induction false} PowPower(b: int, m: nat, n: nat)
      ensures m * n >= 0 && Pow(Pow(b, m), n) == Pow(b, m * n)
      decreases n
    {
      if n > 0 {
        PowPower(b, m, n - 1);
        assert m * n == m + m * (n - 1);
        PowSum(b, m, m * (n - 1));
      }
    }

    // ------------------------------------------------------- the field's facts

    /** Euclid's lemma for one product. */
    ghost predicate Euclid(a: int, b: int)
    {
      F(a * b) == 0 ==> F(a) == 0 || F(b) == 0
    }

    /** Fermat's little theorem for one base. */
    ghost predicate Fermat(a: int)
    {
      F(a) != 0 ==> F(Pow(a, p - 1)) == 1
    }

    /** p is prime, as the proofs below use it. */
    ghost predicate Prime()
    {
      (forall a, b :: Euclid(a, b)) && (forall a :: Fermat(a))
    }

    lemma NoZeroDivisors(a: int, b: int)
      requires Prime()
      ensures F(a * b) == 0 <==> F(a) == 0 || F(b) == 0
    {
      Small(0);
      assert Euclid(a, b);
      if F(a) == 0 { MulSame(a, 0, b, b); }
      if F(b) == 0 { MulSame(a, a, b, 0); }
    }

    /** `_inv` inverts every non-zero residue. */
    lemma Inverse(x: int)
      requires Prime() && F(x) != 0
      ensures F(x * Inv(x)) == 1
    {
      assert Fermat(x);
      Small(Pow(x, p - 2));
      MulSame(x, x, Inv(x), Pow(x, p - 2));
      assert Pow(x, p - 1) == x * Pow(x, p - 2);
    }

    /** A residue has at most two square roots, x and -x. */
    lemma SquareRoots(x: int, y: int)
      requires Prime() && F(x * x) == F(y * y)
      ensures F(x) == F(y) || F(x) == F(-y)
    {
      ZeroDifference(x * x, y * y);
      assert x * x - y * y == (x - y) * (x + y);
      NoZeroDivisors(x - y, x + y);
      ZeroDifference(x, y);
      ZeroDifference(x, -y);
      assert x - (-y) == x + y;
    }
  }
}
