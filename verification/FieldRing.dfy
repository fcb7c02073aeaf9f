/**
 The Montgomery representatives with Add, Sub and Mul form the commutative ring
 Z_q: its laws, proved once from the exact results in module Field, are all that
 the polynomial proofs use.
 */
module FieldRing {
  import opened Field

  /** The representative of -a. */
  function Neg(a: FieldElement): (r: FieldElement)
  {
    Sub(0, a)
  }

  lemma AddCommutes(a: FieldElement, b: FieldElement)
    ensures Add(a, b) == Add(b, a)
  {
    hide Add;
    AddExact(a, b);
    AddExact(b, a);
  }

  lemma AddAssociates(a: FieldElement, b: FieldElement, c: FieldElement)
    ensures Add(Add(a, b), c) == Add(a, Add(b, c))
  {
    hide Add;
    AddExact(a, b);
    AddExact(b, c);
    AddExact(Add(a, b), c);
    AddExact(a, Add(b, c));
  }

  lemma AddZero(a: FieldElement)
    ensures Add(a, 0) == a && Add(0, a) == a && Sub(a, 0) == a
  {
    hide Add, Sub;
    AddExact(a, 0);
    AddExact(0, a);
    SubExact(a, 0);
  }

  lemma SubIsAddNeg(a: FieldElement, b: FieldElement)
    ensures Sub(a, b) == Add(a, Neg(b))
  {
    hide Add, Sub;
    SubExact(a, b);
    SubExact(0, b);
    AddExact(a, Neg(b));
  }

  lemma AddNeg(a: FieldElement)
    ensures Add(a, Neg(a)) == 0 && Add(Neg(a), a) == 0
  {
    hide Add, Sub;
    SubExact(0, a);
    AddExact(a, Neg(a));
    AddExact(Neg(a), a);
  }

  lemma NegNeg(a: FieldElement)
    ensures Neg(Neg(a)) == a
  {
    hide Sub;
    SubExact(0, a);
    SubExact(0, Neg(a));
  }

  lemma MulCommutes(a: FieldElement, b: FieldElement)
    ensures Mul(a, b) == Mul(b, a)
  {
    hide Mul;
    MulExact(a, b);
    MulExact(b, a);
  }

  lemma MulAssociates(a: FieldElement, b: FieldElement, c: FieldElement)
    ensures Mul(Mul(a, b), c) == Mul(a, Mul(b, c))
  {
    hide *;
    MulMulExact(a, b, c);
    MulMulExact(b, c, a);
    MulCommutes(a, Mul(b, c));
    RegroupTriple(a, b, c);
  }

  lemma MulMulExact(a: FieldElement, b: FieldElement, c: FieldElement)
    ensures Mul(Mul(a, b), c) == (a * b * 8265825 * (c * 8265825)) % 8380417
  {
    hide Mul;
    var m := Mul(a, b);
    MulExact(a, b);
    MulExact(m, c);
    RegroupPair(m, c);
    var k := ReduceFactor(a * b * 8265825, c * 8265825);
    ModAddMultiple(((a * b * 8265825) % 8380417) * (c * 8265825), k);
  }

  lemma RegroupPair(a: int, c: int)
    ensures a * c * 8265825 == a * (c * 8265825)
  {
  }

  lemma RegroupTriple(a: int, b: int, c: int)
    ensures a * b * 8265825 * (c * 8265825) == b * c * 8265825 * (a * 8265825)
  {
  }

  lemma MulDistributes(a: FieldElement, b: FieldElement, c: FieldElement)
    ensures Mul(a, Add(b, c)) == Add(Mul(a, b), Mul(a, c))
  {
    hide *;
    var s := Add(b, c);
    AddExact(b, c);
    MulExact(a, b);
    MulExact(a, c);
    MulExact(a, s);
    AddExact(Mul(a, b), Mul(a, c));
    var k := ReduceFactor(b + c, a * 8265825);
    ModAddMultiple(((b + c) % 8380417) * (a * 8265825), k);
    RegroupSwap(s, a);
    RegroupSum(a, b, c);
    ModSum(a * b * 8265825, a * c * 8265825);
  }

  lemma RegroupSwap(s: int, a: int)
    ensures a * s * 8265825 == s * (a * 8265825)
  {
  }

  lemma RegroupSum(a: int, b: int, c: int)
    ensures (b + c) * (a * 8265825) == a * b * 8265825 + a * c * 8265825
  {
  }

  lemma ModSum(x: int, y: int)
    ensures (x % 8380417 + y % 8380417) % 8380417 == (x + y) % 8380417
  {
  }

  lemma MulOne(a: FieldElement)
    ensures Mul(ONE, a) == a && Mul(a, ONE) == a
  {
    hide Mul;
    MulExact(a, ONE);
    MulCommutes(a, ONE);
    var k := (4193792 * 8265825 - 1) / 8380417;
    assert 4193792 * 8265825 == 1 + k * 8380417;
    assert a * ONE * 8265825 == a + (a * k) * 8380417;
    ModAddMultiple(a, a * k);
  }

  lemma MulZero(a: FieldElement)
    ensures Mul(0, a) == 0 && Mul(a, 0) == 0
  {
    hide Mul;
    MulExact(0, a);
    MulExact(a, 0);
  }

  lemma MulNeg(a: FieldElement, b: FieldElement)
    ensures Mul(a, Neg(b)) == Neg(Mul(a, b))
  {
    hide *;
    MulDistributes(a, b, Neg(b));
    AddNeg(b);
    MulZero(a);
    NegUnique(Mul(a, b), Mul(a, Neg(b)));
  }

  lemma NegUnique(a: FieldElement, b: FieldElement)
    requires Add(a, b) == 0
    ensures b == Neg(a)
  {
    hide *;
    AddAssociates(Neg(a), a, b);
    AddNeg(a);
    AddZero(b);
    AddZero(Neg(a));
  }

  /** fieldMontgomeryMulSub is the product with a difference. */
  lemma MulSubIsMul(a: FieldElement, b: FieldElement, c: FieldElement)
    ensures MulSub(a, b, c) == Mul(a, Sub(b, c))
  {
    hide *;
    var d := Sub(b, c);
    MulSubExact(a, b, c);
    SubExact(b, c);
    MulExact(a, d);
    var k := ReduceFactor(b - c, a * 8265825);
    ModAddMultiple(((b - c) % 8380417) * (a * 8265825), k);
    RegroupSwap(d, a);
    RegroupSwap(b - c, a);
  }

  /** Leaving and entering Montgomery form are inverse maps. */
  lemma ToFromMontgomery(a: FieldElement)
    ensures ToMontgomery(a).Reduced? && FromMontgomery(ToMontgomery(a).element) == a
    ensures ToMontgomery(FromMontgomery(a)).Reduced? && ToMontgomery(FromMontgomery(a)).element == a
  {
    hide *;
    var k := (4294967296 * 8265825 - 1) / 8380417;
    assert 4294967296 * 8265825 == 1 + k * 8380417;
    FromExact(a);
    FromExact(ToMontgomery(a).element);
    var s := ReduceFactor(a * 4294967296, 8265825);
    ModAddMultiple(((a * 4294967296) % 8380417) * 8265825, s);
    var t := ReduceFactor(a * 8265825, 4294967296);
    ModAddMultiple(((a * 8265825) % 8380417) * 4294967296, t);
    assert a * 4294967296 * 8265825 == a + (a * k) * 8380417;
    ModAddMultiple(a, a * k);
  }

  //////////////////////////////////////////////////////////////////////////////
  // Values
  //////////////////////////////////////////////////////////////////////////////

  /** The value of a sum, of a difference and of a product. */
  lemma FromAdd(a: FieldElement, b: FieldElement)
    ensures FromMontgomery(Add(a, b)) == (FromMontgomery(a) + FromMontgomery(b)) % 8380417
  {
    hide *;
    AddExact(a, b);
    FromExact(a);
    FromExact(b);
    FromExact(Add(a, b));
    var k := ReduceFactor(a + b, 8265825);
    ModAddMultiple(((a + b) % 8380417) * 8265825, k);
    ModSum(a * 8265825, b * 8265825);
  }

  lemma FromSub(a: FieldElement, b: FieldElement)
    ensures FromMontgomery(Sub(a, b)) == (FromMontgomery(a) - FromMontgomery(b)) % 8380417
  {
    hide *;
    SubExact(a, b);
    FromExact(a);
    FromExact(b);
    FromExact(Sub(a, b));
    var k := ReduceFactor(a - b, 8265825);
    ModAddMultiple(((a - b) % 8380417) * 8265825, k);
    ModDifference(a * 8265825, b * 8265825);
  }

  lemma ModDifference(x: int, y: int)
    ensures (x % 8380417 - y % 8380417) % 8380417 == (x - y) % 8380417
  {
  }

  lemma FromMul(a: FieldElement, b: FieldElement)
    ensures FromMontgomery(Mul(a, b)) == (FromMontgomery(a) * FromMontgomery(b)) % 8380417
  {
    hide *;
    MulExact(a, b);
    FromExact(a);
    FromExact(b);
    FromExact(Mul(a, b));
    var i := ReduceFactor(a * b * 8265825, 8265825);
    ModAddMultiple(((a * b * 8265825) % 8380417) * 8265825, i);
    var j := ReduceFactor(a * 8265825, FromMontgomery(b));
    ModAddMultiple(((a * 8265825) % 8380417) * FromMontgomery(b), j);
    var l := ReduceFactor(b * 8265825, a * 8265825);
    ModAddMultiple(((b * 8265825) % 8380417) * (a * 8265825), l);
    FromMulRegroup(a, b, FromMontgomery(b));
  }

  lemma FromMulRegroup(a: int, b: int, y: int)
    ensures a * 8265825 * y == y * (a * 8265825)
    ensures b * 8265825 * (a * 8265825) == a * b * 8265825 * 8265825
  {
  }

  /** The value of the Montgomery form of a - b. */
  lemma FromSubToMontgomery(a: FieldElement, b: FieldElement)
    ensures FromMontgomery(SubToMontgomery(a, b)) == (a - b) % 8380417
  {
    hide *;
    SubToMontgomeryExact(a, b);
    FromExact(SubToMontgomery(a, b));
    var k := ReduceFactor((a - b) * 4294967296, 8265825);
    ModAddMultiple((((a - b) * 4294967296) % 8380417) * 8265825, k);
    RoundTripFactor(a - b);
  }

  lemma RoundTripFactor(x: int)
    ensures (x * 4294967296 * 8265825) % 8380417 == x % 8380417
  {
    var k := (4294967296 * 8265825 - 1) / 8380417;
    assert 4294967296 * 8265825 == 1 + k * 8380417;
    assert x * 4294967296 * 8265825 == x + (x * k) * 8380417;
    ModAddMultiple(x, x * k);
  }

  /** Elements with equal values are equal. */
  lemma FromInjective(a: FieldElement, b: FieldElement)
    requires FromMontgomery(a) == FromMontgomery(b)
    ensures a == b
  {
    hide *;
    ToFromMontgomery(a);
    ToFromMontgomery(b);
  }

  lemma FromOne()
    ensures FromMontgomery(ONE) == 1 && FromMontgomery(MINUS_ONE) == 8380416 && FromMontgomery(0) == 0
  {
    hide FromMontgomery;
    FromExact(ONE);
    FromExact(MINUS_ONE);
    FromExact(0);
  }

  //////////////////////////////////////////////////////////////////////////////
  // Norms
  //////////////////////////////////////////////////////////////////////////////

  lemma NormAdd(a: FieldElement, b: FieldElement)
    ensures InfinityNorm(Add(a, b)) <= InfinityNorm(a) + InfinityNorm(b)
  {
    hide FromMontgomery, Add;
    FromAdd(a, b);
  }

  lemma NormNeg(a: FieldElement)
    ensures InfinityNorm(Neg(a)) == InfinityNorm(a)
  {
    hide FromMontgomery, Sub;
    FromSub(0, a);
    FromOne();
  }

  /** A difference of values is the difference of the centred representatives, up to one q. */
  lemma FromShift(a: FieldElement, b: FieldElement)
    ensures FromMontgomery(Add(a, b)) == (FromMontgomery(a) + CenteredMod(b)) % 8380417
    ensures FromMontgomery(Sub(a, b)) == (FromMontgomery(a) - CenteredMod(b)) % 8380417
  {
    hide FromMontgomery, Add, Sub;
    FromAdd(a, b);
    FromSub(a, b);
  }
}
