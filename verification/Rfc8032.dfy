/**
 The constants of Ed25519 (section 5.1 of RFC 8032) as the source computes them,
 and the verification they give. The numbers appear only in lemmas about numbers.
 */
module Rfc8032 {
  import opened Wrappers
  import opened PrimeField
  import opened Edwards
  import opened SquareRoot
  import opened Ed25519
  import opened Signatures

  /** `_P` */
  function Prime(): (p: Modulus)
  {
    0x7fffffffffffffffffffffffffffffffffffffffffffffffffffffffffffffed
  }

  function BaseField(): Field
  {
    Field(Prime())
  }

  /** `_D` */
  function CurveD(): int
  {
    BaseField().F(-121665 * BaseField().Inv(121666))
  }

  /** `_I` */
  function RootOfMinusOne(): int
  {
    BaseField().PowMod(2, (Prime() - 1) / 4)
  }

  function Ed25519Curve(): Curve
  {
    Curve(BaseField(), CurveD(), RootOfMinusOne())
  }

  /** `_BY` */
  function BaseY(): int
  {
    BaseField().F(4 * BaseField().Inv(5))
  }

  /** `_B` */
  function Base(): Point
  {
    var x := EvenOf(Ed25519Curve(), Candidate(Ed25519Curve(), XSquared(Ed25519Curve(), BaseY())));
    (BaseField().F(x), BaseField().F(BaseY()))
  }

  /** The order of the base point, from section 5.1 of RFC 8032. */
  function Order(): nat
  {
    0x1000000000000000000000000000000014def9dea2f79cd65812631a5cf5d3ed
  }

  /** What is assumed about these constants: see `BaseGroup`. */
  ghost predicate Ed25519Group()
  {
    CurveGroup(Ed25519Curve()) && HasOrder(Ed25519Curve(), Base(), Order())
  }

  // ------------------------------------------------------------ printed values

  function PrintedD(): int
  {
    0x52036cee2b6ffe738cc740797779e89800700a4d4141d8ab75eb4dca135978a3
  }

  function PrintedBase(): Point
  {
    (0x216936d3cd6e53fec0a4e231fdd6dc5c692cc7609525a7b2c9562d608f25d51a,
     0x6666666666666666666666666666666666666666666666666666666666666658)
  }

  /** A residue v with v n = m is the quotient computed as m times the inverse of n. */
  lemma QuotientValue(f: Field, m: int, n: int, v: int)
    requires f.Prime() && f.F(n) != 0 && f.F(v * n) == f.F(m)
    ensures f.F(f.F(m * f.Inv(n))) == f.F(v)
  {
    hide Field.F;
    var w := f.Inv(n);
    f.Inverse(n);
    f.Small(1);
    f.MulSame(v * n, m, w, w);
    f.MulSame(v, v, n * w, 1);
    assert (v * n) * w == v * (n * w);
    f.Small(m * w);
  }

  lemma PrintedQuotients()
    ensures BaseField().F(121666) != 0 && BaseField().F(PrintedD() * 121666) == BaseField().F(-121665)
    ensures BaseField().F(5) != 0 && BaseField().F(PrintedBase().1 * 5) == BaseField().F(4)
  {
  }

  /** The product of the printed coordinates, its square, and both sides of the curve equation. */
  function PrintedProduct(): (int, int, int)
  {
    (0x67875f0fd78b766566ea4e8e64abe37d20f09f80775152f56dde8ab3a5b7dda3,
     0x43c62db565e3d3bfdce7c49981fd913f4f49fda745a0e7fe57b577142ad1fdae,
     0x1805ddb3491df0a9558e2ebbaa02855effa18262f5201aa14f4661759bd03579)
  }

  lemma PrintedSteps()
    ensures var ((x, y), (m, s, g)) := (PrintedBase(), PrintedProduct());
      && BaseField().F(x * y) == BaseField().F(m) && BaseField().F(m * m) == BaseField().F(s)
      && BaseField().F(1 + PrintedD() * s) == BaseField().F(g) && BaseField().F(y * y - x * x) == BaseField().F(g)
  {
  }

  lemma EquationInSteps(f: Field, d: int, x: int, y: int, m: int, s: int, g: int)
    requires f.F(x * y) == f.F(m) && f.F(m * m) == f.F(s) && f.F(1 + d * s) == f.F(g) && f.F(y * y - x * x) == f.F(g)
    ensures f.F(y * y - x * x) == f.F(1 + d * ((x * y) * (x * y)))
  {
    hide Field.F;
    f.MulSame(x * y, m, x * y, m);
    f.MulSame(d, d, (x * y) * (x * y), s);
    f.AddSame(1, 1, d * ((x * y) * (x * y)), d * s);
  }

  lemma PrintedEquation()
    ensures var (x, y) := PrintedBase();
      BaseField().F(y * y - x * x) == BaseField().F(1 + PrintedD() * ((x * y) * (x * y)))
  {
    PrintedSteps();
    hide Field.F, PrintedBase, PrintedProduct, PrintedD, Prime;
    var ((x, y), (m, s, g)) := (PrintedBase(), PrintedProduct());
    EquationInSteps(BaseField(), PrintedD(), x, y, m, s, g);
  }

  lemma PrintedRange()
    ensures var (x, y) := PrintedBase(); 0 <= x < Prime() && 0 <= y < Prime() && x % 2 == 0
    ensures Prime() <= Two255()
  {
  }

  lemma ConstantValues()
    requires BaseField().Prime()
    ensures BaseField().F(CurveD()) == BaseField().F(PrintedD())
        && BaseField().F(BaseY()) == BaseField().F(PrintedBase().1)
  {
    PrintedQuotients();
    hide Field.F, PrintedD, PrintedBase, Prime, Field.Inv;
    QuotientValue(BaseField(), -121665, 121666, PrintedD());
    QuotientValue(BaseField(), 4, 5, PrintedBase().1);
  }

  lemma PrintedOnCurve()
    requires BaseField().Prime()
    ensures Ed25519Curve().OnCurve(PrintedBase())
  {
    ConstantValues();
    PrintedEquation();
    hide Field.F, PrintedD, PrintedBase, Prime, CurveD, RootOfMinusOne, Curve.OnCurve;
    var (x, y) := PrintedBase();
    OnCurveFrom(Ed25519Curve(), PrintedD(), x, y);
  }

  /** The curve equation for one representative of d is the equation for any. */
  lemma OnCurveFrom(c: Curve, d: int, x: int, y: int)
    requires c.fp.F(c.d) == c.fp.F(d) && c.fp.F(y * y - x * x) == c.fp.F(1 + d * ((x * y) * (x * y)))
    ensures c.OnCurve((x, y))
  {
    hide Field.F, Curve.OnCurve;
    var s := (x * y) * (x * y);
    c.fp.MulSame(c.d, d, s, s);
    c.fp.AddSame(1, 1, c.d * s, d * s);
    c.CurveEquation(x, y);
  }

  // ------------------------------------------------------------ main results

  /** The base point the module computes is the one the RFC prints, and it is on the curve. */
  lemma BasePoint()
    requires Ed25519Curve().CurveField()
    ensures Base() == PrintedBase() && Ed25519Curve().OnCurve(Base())
  {
    PrintedOnCurve();
    ConstantValues();
    PrintedRange();
    hide Field.F, PrintedBase, Prime, CurveD, RootOfMinusOne, Curve.OnCurve, BaseY, Candidate, XSquared, EvenOf, Two255;
    var c := Ed25519Curve();
    var (x, y) := PrintedBase();
    BaseYReduced();
    c.fp.Small(y);
    c.fp.Small(BaseY());
    assert BaseY() == y;
    RootOfY(c, x, y);
    RootFound(c, XSquared(c, y), x);
    EvenOfRoot(c, Candidate(c, XSquared(c, y)));
    var even := EvenOf(c, Candidate(c, XSquared(c, y)));
    RootOfY(c, even, y);
    ParityDecides(c, even, x, y);
    c.fp.Small(x);
  }

  lemma BaseYReduced()
    ensures 0 <= BaseY() < Prime()
  {
  }

  /** `ed25519_verify` */
  predicate Ed25519Verify(sha512: Sha512, publicKey: seq<Byte>, message: seq<Byte>, signature: seq<Byte>)
  {
    Verify(Ed25519Curve(), Base(), sha512, publicKey, message, signature)
  }

  /** The encoded multiple of the base point: a public key, or a nonce. */
  function EncodedScalar(n: nat): (data: seq<Byte>)
    ensures |data| == 32
  {
    EncodedTimes(Ed25519Curve(), Base(), n)
  }

  /**
   For the key aB and the nonce point rB, exactly the responses r + h a modulo the order are accepted, where h is the
   number that SHA-512 of nonce, key and message stands for.
   */
  lemma Ed25519VerifyExactly(sha512: Sha512, a: nat, r: nat, response: seq<Byte>, message: seq<Byte>)
    requires Ed25519Group() && |response| == 32
    ensures Ed25519Verify(sha512, EncodedScalar(a), message, EncodedScalar(r) + response)
       <==> FromBytes(response) % Order()
            == (r + a * FromBytes(sha512(EncodedScalar(r) + EncodedScalar(a) + message))) % Order()
  {
    PrintedRange();
    hide Prime, Order, Base, CurveD, RootOfMinusOne, PrintedBase, Two255, Verify, EncodedTimes, FromBytes,
        AssociativeAt, Times;
    hide Curve.OnCurve, Curve.CurveField;
    BasePoint();
    VerifyExactly(Ed25519Curve(), Base(), Order(), sha512, a, r, response, message);
  }
}
