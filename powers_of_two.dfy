/**
 * Powers of two over the reals and `std::ldexp(x, e) = x * 2^e`, which the
 * exponent-based matrix balancing uses to rescale entries without rounding.
 */
module PowersOfTwo {

  /** `2^n` for a natural exponent. */
  function PowerOfTwo(n: nat): (p: real)
    ensures p >= 1.0
  {
    if n == 0 then 1.0 else 2.0 * PowerOfTwo(n - 1)
  }

  /** `2^e` for any integer exponent. */
  function Pow2(e: int): (p: real)
    ensures p > 0.0
  {
    if e >= 0 then PowerOfTwo(e) else 1.0 / PowerOfTwo(-e)
  }

  /** `std::ldexp(x, e)`. */
  function Ldexp(x: real, e: int): real
  {
    x * Pow2(e)
  }

  lemma Regroup(x: real, y: real, z: real, u: real, v: real)
    requires z == x * y && u == 2.0 * z && v == 2.0 * y
    ensures u == x * v
  {
  }

  lemma {:induction false} PowerOfTwoAdd(m: nat, n: nat)
    ensures PowerOfTwo(m + n) == PowerOfTwo(m) * PowerOfTwo(n)
  {
    if n > 0 {
      var x, y, z := PowerOfTwo(m), PowerOfTwo(n - 1), PowerOfTwo(m + n - 1);
      assert z == x * y by { PowerOfTwoAdd(m, n - 1); }
      Regroup(x, y, z, PowerOfTwo(m + n), PowerOfTwo(n));
    }
  }

  lemma QuotientOfProduct(p: real, q: real, r: real)
    requires q > 0.0 && p == r * q
    ensures p * (1.0 / q) == r
  {
  }

  lemma ReciprocalOfProduct(p: real, q: real, r: real)
    requires p > 0.0 && r > 0.0 && q == r * p
    ensures p * (1.0 / q) == 1.0 / r
  {
  }

  lemma ProductOfReciprocals(p: real, q: real, r: real)
    requires p > 0.0 && q > 0.0 && r == p * q
    ensures 1.0 / r == (1.0 / p) * (1.0 / q)
  {
  }

  /** `2^(c+d) / 2^d == 2^c`. */
  lemma QuotientOfPowers(c: nat, d: nat)
    ensures PowerOfTwo(c + d) * (1.0 / PowerOfTwo(d)) == PowerOfTwo(c)
  {
    PowerOfTwoAdd(c, d);
    QuotientOfProduct(PowerOfTwo(c + d), PowerOfTwo(d), PowerOfTwo(c));
  }

  /** `2^a / 2^(c+a) == 1 / 2^c`. */
  lemma ReciprocalOfPowers(a: nat, c: nat)
    ensures PowerOfTwo(a) * (1.0 / PowerOfTwo(c + a)) == 1.0 / PowerOfTwo(c)
  {
    PowerOfTwoAdd(c, a);
    ReciprocalOfProduct(PowerOfTwo(a), PowerOfTwo(c + a), PowerOfTwo(c));
  }

  lemma MixedSignsAbove(a: int, b: int)
    requires a >= 0 && b < 0 && a + b >= 0
    ensures Pow2(a + b) == Pow2(a) * Pow2(b)
  {
    var c, d := a + b, -b;
    QuotientOfPowers(c, d);
    assert c + d == a;
    NaturalExponent(a);
    NegativeExponent(b);
    NaturalExponent(c);
  }

  lemma MixedSignsBelow(a: int, b: int)
    requires a >= 0 && b < 0 && a + b < 0
    ensures Pow2(a + b) == Pow2(a) * Pow2(b)
  {
    var c := -(a + b);
    ReciprocalOfPowers(a, c);
    assert c + a == -b;
    NaturalExponent(a);
    NegativeExponent(b);
    NegativeExponent(a + b);
  }

  lemma NaturalExponent(e: int)
    requires e >= 0
    ensures Pow2(e) == PowerOfTwo(e)
  {
  }

  lemma NegativeExponent(e: int)
    requires e < 0
    ensures Pow2(e) == 1.0 / PowerOfTwo(-e)
  {
  }

  /** Exponents add when powers of two multiply. */
  lemma Pow2Add(a: int, b: int)
    ensures Pow2(a + b) == Pow2(a) * Pow2(b)
  {
    if a >= 0 && b >= 0 {
      PowerOfTwoAdd(a, b);
    } else if a < 0 && b < 0 {
      PowerOfTwoAdd(-a, -b);
      ProductOfReciprocals(PowerOfTwo(-a), PowerOfTwo(-b), PowerOfTwo(-(a + b)));
    } else if a >= 0 {
      if a + b >= 0 { MixedSignsAbove(a, b); } else { MixedSignsBelow(a, b); }
    } else {
      if a + b >= 0 { MixedSignsAbove(b, a); } else { MixedSignsBelow(b, a); }
    }
  }

  lemma Associate(x: real, p: real, q: real, pq: real)
    requires pq == p * q
    ensures (x * p) * q == x * pq
  {
  }

  /** Two `ldexp` calls compose into one with the summed exponent. */
  lemma LdexpAdd(x: real, a: int, b: int)
    ensures Ldexp(Ldexp(x, a), b) == Ldexp(x, a + b)
  {
    Pow2Add(a, b);
    Associate(x, Pow2(a), Pow2(b), Pow2(a + b));
  }

  /** Scaling by `2^e` and then by `2^-e` gives the value back, in either order. */
  lemma LdexpRoundTrip(x: real, e: int)
    ensures Ldexp(Ldexp(x, e), -e) == x
    ensures Ldexp(Ldexp(x, -e), e) == x
  {
    LdexpAdd(x, e, -e);
    LdexpAdd(x, -e, e);
  }

  /** `ldexp` distributes over a sum. */
  lemma LdexpDistributes(x: real, y: real, e: int)
    ensures Ldexp(x, e) + Ldexp(y, e) == Ldexp(x + y, e)
  {
    Distribute(x, y, Pow2(e));
  }

  lemma Distribute(x: real, y: real, p: real)
    ensures x * p + y * p == (x + y) * p
  {
  }

  /** Scaling by a power of two keeps the sign, so it commutes with the absolute value. */
  lemma LdexpAbs(x: real, e: int)
    ensures (if Ldexp(x, e) < 0.0 then -Ldexp(x, e) else Ldexp(x, e))
         == Ldexp(if x < 0.0 then -x else x, e)
  {
  }
}
