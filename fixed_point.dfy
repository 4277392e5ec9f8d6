/**
 * The 32.32 fixed-point helpers the fee code calls. Their implementation is not
 * part of this model; these definitions are ASSUMED: a rate r stands for r / 2^32,
 * multiplication and division round down, on unbounded integers.
 */
module FixedPoint {
  import opened Bytes

  /** The fixed-point representation of 1.0. */
  const FpOne: int := 0x1_0000_0000

  /** Assumed `fp32_mul(a, r) = floor(a * r / 2^32)`. */
  function Fp32Mul(a: u64, r: u64): (p: nat)
    ensures p * FpOne <= a * r < (p + 1) * FpOne
  {
    a * r / FpOne
  }

  /** Assumed `fp32_div(a, r) = floor(a * 2^32 / r)`; a zero rate is a caller error. */
  function Fp32Div(a: u64, r: u64): (q: nat)
    requires r > 0
    ensures q * r <= a * FpOne < (q + 1) * r
  {
    a * FpOne / r
  }

  /** Multiplying by the representation of 1.0 is the identity. */
  lemma MulByOne(a: u64)
    ensures Fp32Mul(a, FpOne) == a
  {
  }

  /** A rate of at most 1.0 never makes an amount larger. */
  lemma MulBelowOne(a: u64, r: u64)
    requires r <= FpOne
    ensures Fp32Mul(a, r) <= a
  {
    var p := Fp32Mul(a, r);
    assert a * r <= a * FpOne by { MulLeftMono(a, r, FpOne); }
    assert p * FpOne < (a + 1) * FpOne;
    MulRightCancel(p, a + 1, FpOne);
  }

  /** A larger rate never gives a smaller product. */
  lemma MulMonotoneInRate(a: u64, r1: u64, r2: u64)
    requires r1 <= r2
    ensures Fp32Mul(a, r1) <= Fp32Mul(a, r2)
  {
    var p1, p2 := Fp32Mul(a, r1), Fp32Mul(a, r2);
    assert a * r1 <= a * r2 by { MulLeftMono(a, r1, r2); }
    assert p1 * FpOne < (p2 + 1) * FpOne;
    MulRightCancel(p1, p2 + 1, FpOne);
  }

  /** Dividing by a rate of at least 1.0 never makes an amount larger. */
  lemma DivAtLeastOne(a: u64, r: u64)
    requires r >= FpOne
    ensures Fp32Div(a, r) <= a
  {
    var q := Fp32Div(a, r);
    assert q * FpOne <= q * r by { MulLeftMono(q, FpOne, r); }
    assert q * FpOne < (a + 1) * FpOne;
    MulRightCancel(q, a + 1, FpOne);
  }

  /**
   * Multiplying and then dividing by the same rate of at least 1.0 loses at
   * most one unit to the two roundings.
   */
  lemma MulThenDiv(a: u64, r: u64)
    requires FpOne <= r
    ensures Fp32Mul(a, r) < U64Modulus ==> a - 1 <= Fp32Div(Fp32Mul(a, r) as u64, r) <= a
  {
    var p := Fp32Mul(a, r);
    if p < U64Modulus {
      var q := Fp32Div(p as u64, r);
      // Upper bound: q * r <= p * FpOne <= a * r.
      assert q * r <= a * r;
      MulRightCancelLe(q, a, r);
      // Lower bound: (q + 1) * r > p * FpOne > a * r - FpOne >= (a - 1) * r.
      assert (q + 1) * r > (a - 1) * r;
      MulRightCancel(a - 1, q + 1, r);
    }
  }

  /**
   * For any positive rate the round trip loses less than 2^32 / r + 1 units:
   * with q the result, (a - q - 1) * r < 2^32.
   */
  lemma MulThenDivLoss(a: u64, r: u64)
    requires 0 < r
    ensures Fp32Mul(a, r) < U64Modulus ==> a * r < (Fp32Div(Fp32Mul(a, r) as u64, r) + 1) * r + FpOne
  {
    var p := Fp32Mul(a, r);
    if p < U64Modulus {
      var q := Fp32Div(p as u64, r);
      assert p * FpOne < (q + 1) * r;
      assert a * r < p * FpOne + FpOne;
    }
  }

  /**
   * Below 1.0 the one-unit bound of MulThenDiv can fail: at about 0.9, 10 comes
   * back as 8; at the smallest rate, 2^32 - 1 comes back as 0.
   */
  lemma MulThenDivBelowOneExamples()
    ensures Fp32Mul(10, 3865470566) == 8 && Fp32Div(8, 3865470566) == 8
    ensures Fp32Mul(FpOne - 1, 1) == 0 && Fp32Div(0, 1) == 0
  {
  }

  /** At the smallest rate, every amount below 2^32 multiplies, and so divides back, to 0. */
  lemma RateOneLosesAll(x: u64)
    requires x < FpOne
    ensures Fp32Mul(x, 1) == 0 && Fp32Div(Fp32Mul(x, 1) as u64, 1) == 0
  {
  }

  lemma MulLeftMono(a: nat, x: int, y: int)
    requires x <= y
    ensures a * x <= a * y
  {
  }

  lemma MulRightCancelLe(x: int, y: int, c: int)
    requires c > 0 && x * c <= y * c
    ensures x <= y
  {
  }

  lemma MulRightCancel(x: int, y: int, c: int)
    requires c > 0 && x * c < y * c
    ensures x < y
  {
  }
}
