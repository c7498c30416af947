/**
 `ed25519_verify` over any curve and base point, and the group arithmetic behind it
 (section 5.1.7 of RFC 8032). Associativity of the curve addition is a hypothesis;
 that `_scalarmult` is repeated addition, and what the final equation accepts, is
 proved from it.
 */
module Signatures {
  import opened Wrappers
  import opened PrimeField
  import opened Edwards
  import opened SquareRoot
  import opened Ed25519

  // ------------------------------------------------------- repeated addition

  ghost predicate AssociativeAt(c: Curve, p: Point, q: Point, r: Point)
  {
    c.OnCurve(p) && c.OnCurve(q) && c.OnCurve(r) ==> c.Add(c.Add(p, q), r) == c.Add(p, c.Add(q, r))
  }

  /** The curve's addition is a group operation as far as it is needed here. */
  ghost predicate CurveGroup(c: Curve)
  {
    c.CurveField() && forall p, q, r :: AssociativeAt(c, p, q, r)
  }

  /** p added to itself n times. */
  function Times(c: Curve, p: Point, n: nat): (r: Point)
    ensures c.Reduced(r)
  {
    if n == 0 then NEUTRAL else c.Add(Times(c, p, n - 1), p)
  }

  lemma InverseOfOne(c: Curve)
    ensures c.fp.Inv(1) == 1
  {
    c.fp.PowOne(c.fp.p - 2);
    c.fp.Small(1);
  }

  lemma AddNeutral(c: Curve, p: Point)
    requires c.Reduced(p)
    ensures c.Add(p, NEUTRAL) == p
  {
    hide Field.F;
    InverseOfOne(c);
    var (x, y) := p;
    assert c.d * x * 0 * y * 1 == 0;
    c.fp.Small(x);
    c.fp.Small(y);
  }

  lemma {:induction false} TimesOnCurve(c: Curve, p: Point, n: nat)
    requires c.CurveField() && c.OnCurve(p)
    ensures c.OnCurve(Times(c, p, n)) && c.Reduced(Times(c, p, n))
  {
    hide Curve.Add, Curve.OnCurve, Curve.CurveField;
    if n == 0 {
      c.NeutralOnCurve();
    } else {
      TimesOnCurve(c, p, n - 1);
      c.AddOnCurve(Times(c, p, n - 1), p);
    }
  }

  lemma {:induction false} TimesSum(c: Curve, p: Point, m: nat, n: nat)
    requires CurveGroup(c) && c.OnCurve(p)
    ensures Times(c, p, m + n) == c.Add(Times(c, p, m), Times(c, p, n))
  {
    hide Curve.Add, Curve.OnCurve, Curve.CurveField;
    TimesOnCurve(c, p, m);
    if n == 0 {
      AddNeutral(c, Times(c, p, m));
    } else {
      TimesSum(c, p, m, n - 1);
      TimesOnCurve(c, p, n - 1);
      assert AssociativeAt(c, Times(c, p, m), Times(c, p, n - 1), p);
      assert Times(c, p, m + n) == c.Add(Times(c, p, m + (n - 1)), p);
    }
  }

  /** `_scalarmult` computes n-fold addition. */
  lemma {:induction false} ScalarMultIsTimes(c: Curve, p: Point, n: nat)
    requires CurveGroup(c) && c.OnCurve(p)
    ensures c.ScalarMult(p, n) == Times(c, p, n)
  {
    hide Curve.Add, Curve.OnCurve, CurveGroup;
    if n > 0 {
      ScalarMultIsTimes(c, p, n / 2);
      TimesSum(c, p, n / 2, n / 2);
      if n % 2 == 1 {
        assert Times(c, p, n) == c.Add(Times(c, p, n - 1), p);
        assert n - 1 == n / 2 + n / 2;
      } else {
        assert n == n / 2 + n / 2;
      }
    }
  }

  lemma {:induction false} TimesOfTimes(c: Curve, p: Point, a: nat, h: nat)
    requires CurveGroup(c) && c.OnCurve(p)
    ensures a * h >= 0 && Times(c, Times(c, p, a), h) == Times(c, p, a * h)
    decreases h
  {
    hide Curve.Add, Curve.OnCurve, CurveGroup;
    if h > 0 {
      TimesOfTimes(c, p, a, h - 1);
      assert a * h == a * (h - 1) + a;
      TimesSum(c, p, a * (h - 1), a);
    }
  }

  // ---------------------------------------------------------- order of a point

  /** The multiples of b repeat with the given period and not sooner. */
  ghost predicate PeriodAt(c: Curve, b: Point, order: nat, n: nat)
  {
    order > 0 && (Times(c, b, n) == NEUTRAL <==> n % order == 0)
  }

  ghost predicate HasOrder(c: Curve, b: Point, order: nat)
  {
    order > 0 && forall n :: PeriodAt(c, b, order, n)
  }

  /** Everything assumed of a curve, a base point and its order. */
  ghost predicate BaseGroup(c: Curve, b: Point, order: nat)
  {
    CurveGroup(c) && c.OnCurve(b) && HasOrder(c, b, order)
  }

  lemma TimesOfOrder(c: Curve, b: Point, order: nat, n: nat, k: nat)
    requires BaseGroup(c, b, order)
    ensures n + k * order >= 0 && Times(c, b, n + k * order) == Times(c, b, n)
  {
    hide Curve.Add, Curve.OnCurve, Times, AssociativeAt;
    RemainderOfMultiple(0, k, order);
    assert PeriodAt(c, b, order, k * order);
    TimesSum(c, b, n, k * order);
    TimesOnCurve(c, b, n);
    AddNeutral(c, Times(c, b, n));
  }

  lemma RemainderOfMultiple(n: nat, k: nat, order: nat)
    requires order > 0
    ensures n + k * order >= 0 && (n + k * order) % order == n % order
  {
    Quotient(n + k * order, n / order + k, n % order, order);
  }

  /** Two multiples of the base point are equal exactly when the scalars agree modulo the order. */
  lemma EqualMultiples(c: Curve, b: Point, order: nat, m: nat, n: nat)
    requires BaseGroup(c, b, order)
    ensures Times(c, b, m) == Times(c, b, n) <==> m % order == n % order
  {
    hide Curve.Add, Curve.OnCurve, Times, CurveGroup;
    if m % order == n % order {
      TimesOfOrder(c, b, order, m % order, m / order);
      TimesOfOrder(c, b, order, n % order, n / order);
      assert m == m % order + (m / order) * order && n == n % order + (n / order) * order;
    }
    if Times(c, b, m) == Times(c, b, n) {
      // adding the complement of n to both
      var rest := order - n % order;
      TimesSum(c, b, m, rest);
      TimesSum(c, b, n, rest);
      assert PeriodAt(c, b, order, m + rest) && PeriodAt(c, b, order, n + rest);
      Complement(n, m, order);
    }
  }

  lemma Complement(n: nat, m: nat, order: nat)
    requires order > 0
    ensures var rest := order - n % order;
      (n + rest) % order == 0 && ((m + rest) % order == 0 ==> m % order == n % order)
  {
    var rest := order - n % order;
    Quotient(n + rest, n / order + 1, 0, order);
    if (m + rest) % order == 0 {
      var q := (m + rest) / order;
      assert m + rest == q * order;
      assert m == (q - 1) * order + n % order;
      Quotient(m, q - 1, n % order, order);
    }
  }

  // ------------------------------------------------------------ verification

  type Sha512 = seq<Byte> -> seq<Byte>

  /** The scalar a signature's hash stands for. */
  function Challenge(sha512: Sha512, r: seq<Byte>, publicKey: seq<Byte>, message: seq<Byte>): nat
  {
    FromBytes(sha512(r + publicKey + message))
  }

  /** `ed25519_verify`, for the base point b of the curve c */
  predicate Verify(c: Curve, b: Point, sha512: Sha512, publicKey: seq<Byte>, message: seq<Byte>, signature: seq<Byte>)
  {
    |publicKey| == 32 && |signature| == 64 &&
    var r := DecodePoint(c, signature[..32]);
    var a := DecodePoint(c, publicKey);
    r.Ok? && a.Ok? &&
    var left := c.ScalarMult(b, FromBytes(signature[32..]));
    var right := c.Add(r.value, c.ScalarMult(a.value, Challenge(sha512, signature[..32], publicKey, message)));
    left == right
  }

  /** The encoding of n times b. */
  function EncodedTimes(c: Curve, b: Point, n: nat): (data: seq<Byte>)
    ensures |data| == 32
  {
    EncodePoint(Times(c, b, n))
  }

  lemma EncodedMultiple(c: Curve, b: Point, n: nat)
    requires c.CurveField() && c.OnCurve(b) && c.fp.p <= Two255()
    ensures DecodePoint(c, EncodedTimes(c, b, n)) == Ok(Times(c, b, n))
  {
    hide Curve.OnCurve, Times, DecodePoint, EncodePoint, Two255;
    TimesOnCurve(c, b, n);
    DecodeEncode(c, Times(c, b, n));
  }

  /** r + h a as a multiple of the base point. */
  lemma RightHandSide(c: Curve, b: Point, r: nat, h: nat, a: nat)
    requires CurveGroup(c) && c.OnCurve(b)
    ensures a * h >= 0 && c.Add(Times(c, b, r), c.ScalarMult(Times(c, b, a), h)) == Times(c, b, r + a * h)
  {
    hide Curve.Add, Curve.OnCurve, Times, Curve.ScalarMult, AssociativeAt;
    TimesOnCurve(c, b, a);
    ScalarMultIsTimes(c, Times(c, b, a), h);
    TimesOfTimes(c, b, a, h);
    TimesSum(c, b, r, a * h);
  }

  /** The equation checked once both points have been decoded. */
  lemma VerifyOpens(c: Curve, b: Point, sha512: Sha512, key: seq<Byte>, message: seq<Byte>, signature: seq<Byte>,
                    r: Point, a: Point)
    requires |key| == 32 && |signature| == 64 && DecodePoint(c, signature[..32]) == Ok(r)
        && DecodePoint(c, key) == Ok(a)
    ensures Verify(c, b, sha512, key, message, signature)
       <==> (c.ScalarMult(b, FromBytes(signature[32..]))
             == c.Add(r, c.ScalarMult(a, Challenge(sha512, signature[..32], key, message))))
  {
    hide DecodePoint, FromBytes, Challenge, Curve.Add, Curve.ScalarMult;
  }

  lemma EquationExactly(c: Curve, b: Point, order: nat, r: nat, a: nat, h: nat, s: nat)
    requires BaseGroup(c, b, order)
    ensures a * h >= 0
    ensures c.ScalarMult(b, s) == c.Add(Times(c, b, r), c.ScalarMult(Times(c, b, a), h))
        <==> s % order == (r + a * h) % order
  {
    hide Curve.Add, Curve.OnCurve, Times, Curve.ScalarMult, CurveGroup;
    ScalarMultIsTimes(c, b, s);
    RightHandSide(c, b, r, h, a);
    EqualMultiples(c, b, order, s, r + a * h);
  }

  /**
   Exactly the right responses are accepted: for the key ab and the nonce point rb, the check passes
   precisely when the response is r + h a modulo the order of the base point b, where h is the number
   that SHA-512 of nonce, key and message stands for.
   */
  lemma VerifyExactly(c: Curve, b: Point, order: nat, sha512: Sha512, a: nat, r: nat, response: seq<Byte>,
                      message: seq<Byte>)
    requires BaseGroup(c, b, order) && c.fp.p <= Two255() && |response| == 32
    ensures var (key, nonce) := (EncodedTimes(c, b, a), EncodedTimes(c, b, r));
      var h := FromBytes(sha512(nonce + key + message));
      && a * h >= 0
      && (Verify(c, b, sha512, key, message, nonce + response) <==> FromBytes(response) % order == (r + a * h) % order)
  {
    hide Curve.Add, Curve.OnCurve, Times, Curve.ScalarMult, Verify, FromBytes, EncodedTimes, DecodePoint, Two255,
        AssociativeAt;
    var (key, nonce) := (EncodedTimes(c, b, a), EncodedTimes(c, b, r));
    var h := Challenge(sha512, nonce, key, message);
    EncodedMultiple(c, b, a);
    EncodedMultiple(c, b, r);
    Halves(nonce, response);
    VerifyOpens(c, b, sha512, key, message, nonce + response, Times(c, b, r), Times(c, b, a));
    EquationExactly(c, b, order, r, a, h, FromBytes(response));
  }

  lemma Halves(a: seq<Byte>, b: seq<Byte>)
    ensures (a + b)[..|a|] == a && (a + b)[|a|..] == b
  {
  }

  lemma DecodedOnCurve(c: Curve, data: seq<Byte>)
    requires DecodePoint(c, data).Ok?
    ensures c.OnCurve(DecodePoint(c, data).value)
  {
    hide Curve.OnCurve;
  }

  /**
   For any key and signature, of whatever length: the check passes exactly when both halves and the key are what they
   must be, and S b == R + h A for the decoded points, in n-fold addition.
   */
  lemma VerifyMeaning(c: Curve, b: Point, sha512: Sha512, key: seq<Byte>, message: seq<Byte>, signature: seq<Byte>)
    requires CurveGroup(c) && c.OnCurve(b) && c.fp.p <= Two255()
    ensures Verify(c, b, sha512, key, message, signature)
       <==> (|key| == 32 && |signature| == 64
             && DecodePoint(c, signature[..32]).Ok? && DecodePoint(c, key).Ok?
             && Times(c, b, FromBytes(signature[32..]))
                == c.Add(DecodePoint(c, signature[..32]).value,
                         Times(c, DecodePoint(c, key).value, FromBytes(sha512(signature[..32] + key + message)))))
  {
    hide Curve.Add, Curve.OnCurve, Times, Curve.ScalarMult, FromBytes, DecodePoint, Two255, AssociativeAt;
    if |key| == 32 && |signature| == 64 && DecodePoint(c, key).Ok? {
      DecodedOnCurve(c, key);
      ScalarMultIsTimes(c, b, FromBytes(signature[32..]));
      ScalarMultIsTimes(c, DecodePoint(c, key).value, Challenge(sha512, signature[..32], key, message));
    }
  }
}
