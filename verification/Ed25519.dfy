/**
 Point encoding and the verification equation of `ed25519_verify` (sections 5.1.2,
 5.1.3 and 5.1.7 of RFC 8032). SHA-512 is a function parameter; that P is prime,
 that d is no square and that the curve addition is associative are the hypotheses.
 */
module Ed25519 {
  import opened Wrappers
  import opened PrimeField
  import opened Edwards
  import opened SquareRoot

  type Byte = b: int | 0 <= b < 256

  // ------------------------------------------------------------------- bytes

  /** `int.from_bytes(data, "little")` */
  function FromBytes(data: seq<Byte>): nat
  {
    if data == [] then 0 else data[0] + 256 * FromBytes(data[1..])
  }

  /** The n low bytes of v, least significant first. */
  function ToBytes(v: nat, n: nat): (data: seq<Byte>)
    ensures |data| == n
  {
    if n == 0 then [] else [v % 256] + ToBytes(v / 256, n - 1)
  }

  function Radix(n: nat): (r: nat)
    ensures r > 0
  {
    if n == 0 then 1 else 256 * Radix(n - 1)
  }

  lemma {:induction false} FromToBytes(v: nat, n: nat)
    requires v < Radix(n)
    ensures FromBytes(ToBytes(v, n)) == v
  {
    if n > 0 {
      FromToBytes(v / 256, n - 1);
      assert ToBytes(v, n)[1..] == ToBytes(v / 256, n - 1);
    }
  }

  lemma {:induction false} ToFromBytes(data: seq<Byte>)
    ensures FromBytes(data) < Radix(|data|) && ToBytes(FromBytes(data), |data|) == data
  {
    if data != [] {
      ToFromBytes(data[1..]);
      assert FromBytes(data) % 256 == data[0] && FromBytes(data) / 256 == FromBytes(data[1..]);
    }
  }

  function Two255(): (n: nat)
    ensures n > 0
  {
    0x8000000000000000000000000000000000000000000000000000000000000000
  }

  lemma Radix32()
    ensures Radix(32) == 2 * Two255()
  {
    assert Radix(4) == 0x1_0000_0000;
    RadixSum(4, 4);
    RadixSum(8, 8);
    RadixSum(16, 16);
  }

  lemma {:induction false} RadixSum(m: nat, n: nat)
    ensures Radix(m + n) == Radix(m) * Radix(n)
  {
    if m > 0 {
      RadixSum(m - 1, n);
      assert 256 * (Radix(m - 1) * Radix(n)) == (256 * Radix(m - 1)) * Radix(n);
    }
  }

  // ------------------------------------------------------------------ points

  /** y and the sign bit of an encoded point. */
  function EncodedY(data: seq<Byte>): nat
  {
    FromBytes(data) % Two255()
  }

  function SignBit(data: seq<Byte>): nat
  {
    FromBytes(data) / Two255() % 2
  }

  /** `_decode_point` */
  function DecodePoint(c: Curve, data: seq<Byte>): Result<Point>
  {
    var y := EncodedY(data);
    var even := EvenOf(c, Candidate(c, XSquared(c, y)));
    var x := if even % 2 != SignBit(data) then c.fp.p - even else even;
    if c.OnCurve((x, y)) then Ok((x, y)) else Err("point is not on the Ed25519 curve")
  }

  /** Section 5.1.2 of RFC 8032: y with the parity of x in the top bit. */
  function EncodePoint(p: Point): (data: seq<Byte>)
    requires p.1 >= 0
    ensures |data| == 32
  {
    ToBytes(p.1 + (p.0 % 2) * Two255(), 32)
  }

  // ------------------------------------------------- what decoding returns

  lemma DenominatorOfX(c: Curve, y: int)
    requires c.CurveField()
    ensures c.fp.F(c.d * y * y + 1) != 0
  {
    hide Field.F;
    c.fp.Small(0);
    assert c.d * y * y == c.d * (y * y);
    if c.fp.F(c.d * y * y + 1) == 0 {
      c.fp.AddSame(c.d * y * y + 1, 0, 1, 1);
      if c.fp.F(y) == 0 {
        c.fp.MulSame(c.d * y, c.d * y, y, 0);
        assert c.fp.F(-1) == c.fp.F(0);
        MinusOneNonZero(c);
      } else {
        c.NoSquareQuotient(c.im, y);
      }
    }
  }

  lemma MinusOneNonZero(c: Curve)
    ensures c.fp.F(-1) != c.fp.F(0)
  {
    c.fp.Unique(-1, -1, c.fp.p - 1);
    c.fp.Unique(0, 0, 0);
  }

  lemma FactorCurve(x: int, y: int, d: int)
    ensures (y * y - 1) - (x * x) * (d * y * y + 1) == (y * y - x * x) - (1 + d * ((x * y) * (x * y)))
  {
    assert (x * y) * (x * y) == (x * x) * (y * y);
    assert (x * x) * (d * y * y + 1) == d * ((x * x) * (y * y)) + x * x;
  }

  /** A point is on the curve exactly when its x is a root of `XSquared(y)`. */
  lemma RootOfY(c: Curve, x: int, y: int)
    requires c.CurveField()
    ensures c.OnCurve((x, y)) <==> c.fp.F(x * x) == c.fp.F(XSquared(c, y))
  {
    hide Field.F;
    var v := c.d * y * y + 1;
    var w := c.fp.Inv(v);
    DenominatorOfX(c, y);
    c.fp.Inverse(v);
    c.CurveEquation(x, y);
    FactorCurve(x, y, c.d);
    c.fp.ZeroDifference(y * y - 1, (x * x) * v);
    c.fp.ZeroDifference(y * y - x * x, 1 + c.d * ((x * y) * (x * y)));
    assert c.OnCurve((x, y)) <==> c.fp.F(y * y - 1) == c.fp.F((x * x) * v);
    UndoInverse(c, x * x, y * y - 1, v, w);
  }

  lemma UndoInverse(c: Curve, a: int, b: int, v: int, w: int)
    requires c.fp.F(v * w) == 1
    ensures c.fp.F(b) == c.fp.F(a * v) <==> c.fp.F(a) == c.fp.F(b * w)
  {
    hide Field.F;
    c.fp.Small(1);
    if c.fp.F(b) == c.fp.F(a * v) {
      c.fp.MulSame(b, a * v, w, w);
      c.fp.MulSame(a, a, v * w, 1);
      assert (a * v) * w == a * (v * w);
    }
    if c.fp.F(a) == c.fp.F(b * w) {
      c.fp.MulSame(a, b * w, v, v);
      c.fp.MulSame(b, b, v * w, 1);
      assert (b * w) * v == b * (v * w);
    }
  }

  lemma NegatedRoot(c: Curve, x: int, y: int)
    requires c.CurveField() && c.OnCurve((x, y))
    ensures c.OnCurve((c.fp.p - x, y))
  {
    hide Field.F, Curve.OnCurve;
    NegatedSquare(c, x);
    RootOfY(c, x, y);
    RootOfY(c, c.fp.p - x, y);
  }

  /** Two points over the same y with x in 0..P and the same parity are one point. */
  lemma ParityDecides(c: Curve, x: int, z: int, y: int)
    requires c.CurveField() && c.OnCurve((x, y)) && c.OnCurve((z, y))
    requires 0 <= x <= c.fp.p && 0 <= z <= c.fp.p && x % 2 == z % 2
    ensures x == z
  {
    hide Field.F;
    RootOfY(c, x, y);
    RootOfY(c, z, y);
    c.fp.SquareRoots(x, z);
    var k := c.fp.Multiple(x, if c.fp.F(x) == c.fp.F(z) then z else -z);
    SameParity(c, x, z, k);
  }

  lemma SameParity(c: Curve, x: int, z: int, k: int)
    requires 0 <= x <= c.fp.p && 0 <= z <= c.fp.p && x % 2 == z % 2
    requires x == z + k * c.fp.p || x == -z + k * c.fp.p
    ensures x == z
  {
    OddModulus(c);
    EvenMultiple(c.fp.p, x, z, k);
  }

  lemma EvenMultiple(q: int, x: int, z: int, k: int)
    requires q > 0 && q % 2 == 1 && 0 <= x <= q && 0 <= z <= q && x % 2 == z % 2
    requires x == z + k * q || x == -z + k * q
    ensures x == z
  {
    var m := k * q;
    BoundFactor(q, k);
    assert m == -q || m == 0 || m == q || m == 2 * q;
  }

  lemma BoundFactor(q: int, k: int)
    requires q > 0 && -q <= k * q <= 2 * q
    ensures k * q == -q || k * q == 0 || k * q == q || k * q == 2 * q
  {
    LargeFactor(q, k);
    assert k == -1 || k == 0 || k == 1 || k == 2;
  }

  lemma LargeFactor(q: int, k: int)
    requires q > 0
    ensures k >= 3 ==> k * q >= 3 * q
    ensures k <= -2 ==> k * q <= -2 * q
  {
  }

  lemma DecodedRoot(c: Curve, data: seq<Byte>, z: int)
    requires c.CurveField() && c.OnCurve((z, EncodedY(data)))
    ensures DecodePoint(c, data).Ok?
  {
    hide Field.F, EncodedY, SignBit, Curve.OnCurve;
    var y := EncodedY(data);
    RootOfY(c, z, y);
    RootFound(c, XSquared(c, y), z);
    EvenOfRoot(c, Candidate(c, XSquared(c, y)));
    var even := EvenOf(c, Candidate(c, XSquared(c, y)));
    RootOfY(c, even, y);
    NegatedRoot(c, even, y);
  }

  lemma FlipParity(c: Curve, even: int, sign: nat)
    requires 0 <= even < c.fp.p && even % 2 == 0 && sign < 2
    ensures var x := if even % 2 != sign then c.fp.p - even else even;
      0 <= x <= c.fp.p && x % 2 == sign
  {
    OddModulus(c);
    ParityOfDifference(c.fp.p, even);
  }

  lemma ParityOfDifference(q: int, even: int)
    requires q % 2 == 1 && even % 2 == 0
    ensures (q - even) % 2 == 1
  {
  }

  /** What a successful decoding returns. */
  lemma DecodedParts(c: Curve, data: seq<Byte>)
    requires DecodePoint(c, data).Ok?
    ensures var p := DecodePoint(c, data).value;
      c.OnCurve(p) && p.1 == EncodedY(data) && p.0 % 2 == SignBit(data) && 0 <= p.0 <= c.fp.p
  {
    hide Field.F;
    hide Curve.OnCurve;
    hide EncodedY;
    var even := EvenOf(c, Candidate(c, XSquared(c, EncodedY(data))));
    EvenOfRoot(c, Candidate(c, XSquared(c, EncodedY(data))));
    FlipParity(c, even, SignBit(data));
  }

  /** The exact meaning of `_decode_point`: it succeeds precisely on the points over y whose parity is the sign bit. */
  lemma DecodeMeaning(c: Curve, data: seq<Byte>, p: Point)
    requires c.CurveField()
    ensures DecodePoint(c, data) == Ok(p)
       <==> c.OnCurve(p) && p.1 == EncodedY(data) && p.0 % 2 == SignBit(data) && 0 <= p.0 <= c.fp.p
  {
    hide *;
    if DecodePoint(c, data).Ok? {
      DecodedParts(c, data);
    }
    if c.OnCurve(p) && p.1 == EncodedY(data) && p.0 % 2 == SignBit(data) && 0 <= p.0 <= c.fp.p {
      var y := EncodedY(data);
      assert p == (p.0, y);
      DecodedRoot(c, data, p.0);
      DecodedParts(c, data);
      var q := DecodePoint(c, data).value;
      assert q == (q.0, y);
      ParityDecides(c, q.0, p.0, y);
    }
  }

  /** It fails exactly when no point of the curve has that y. */
  lemma DecodeFails(c: Curve, data: seq<Byte>)
    requires c.CurveField()
    ensures DecodePoint(c, data).Err? <==> forall x: int :: !c.OnCurve((x, EncodedY(data)))
  {
    hide EncodedY, SignBit, Curve.OnCurve;
    if DecodePoint(c, data).Err? {
      forall x: int ensures !c.OnCurve((x, EncodedY(data))) {
        if c.OnCurve((x, EncodedY(data))) { DecodedRoot(c, data, x); }
      }
    }
  }

  lemma EncodedParts(p: Point)
    requires 0 <= p.1 < Two255()
    ensures EncodedY(EncodePoint(p)) == p.1 && SignBit(EncodePoint(p)) == p.0 % 2
  {
    Radix32();
    hide Two255, ToBytes, FromBytes, Radix;
    var sign := p.0 % 2;
    FromToBytes(p.1 + sign * Two255(), 32);
    SplitTop(p.1, sign, Two255());
  }

  lemma SplitTop(y: nat, sign: nat, h: nat)
    requires y < h && sign < 2
    ensures sign * h >= 0 && (y + sign * h) % h == y && (y + sign * h) / h % 2 == sign
  {
    assert sign == 0 || sign == 1;
    if sign == 1 {
      assert y + h == 1 * h + y;
      Quotient(y + h, 1, y, h);
    } else {
      Quotient(y, 0, y, h);
    }
  }

  lemma Quotient(v: int, q: int, r: int, h: int)
    requires h > 0 && v == q * h + r && 0 <= r < h
    ensures v / h == q && v % h == r
  {
    var (s, t) := (v / h, v % h);
    assert v == s * h + t;
    assert (q - s) * h == t - r;
    SmallProduct(q - s, h);
  }

  lemma SmallProduct(k: int, h: int)
    requires -h < k * h < h
    ensures k == 0
  {
  }

  /** Decoding undoes the encoding of every reduced point of the curve. */
  lemma DecodeEncode(c: Curve, p: Point)
    requires c.CurveField() && c.OnCurve(p) && c.Reduced(p) && c.fp.p <= Two255()
    ensures DecodePoint(c, EncodePoint(p)) == Ok(p)
  {
    hide Two255, EncodedY, SignBit, DecodePoint, Curve.OnCurve, EncodePoint;
    EncodedParts(p);
    DecodeMeaning(c, EncodePoint(p), p);
  }

  /** And encoding undoes decoding, even where the decoded coordinates are not reduced. */
  lemma EncodeDecode(c: Curve, data: seq<Byte>)
    requires |data| == 32 && DecodePoint(c, data).Ok?
    ensures DecodePoint(c, data).value.1 >= 0 && EncodePoint(DecodePoint(c, data).value) == data
  {
    hide DecodePoint, Curve.OnCurve, ToBytes, FromBytes, Field.F;
    DecodedParts(c, data);
    Radix32();
    ToFromBytes(data);
    hide Two255, Radix;
    RejoinTop(FromBytes(data), Two255());
  }

  lemma RejoinTop(v: nat, h: nat)
    requires h > 0 && v < 2 * h
    ensures v % h + (v / h % 2) * h == v
  {
    if v < h { Quotient(v, 0, v, h); } else { Quotient(v, 1, v - h, h); }
  }
}
