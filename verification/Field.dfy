/**
 internal/mldsa/field.go, scalar part: the integers modulo q = 8380417 in
 Montgomery form (appendix A of FIPS 204). A field element n is represented by
 the integer x in [0, q) with x = n * R (mod q), R = 2^32.

 Every operation is written with the wrap-around of Go's uint32 and uint64, and
 is proved to return the reduced value of the exact integer result.
 */
module Field {

  const Q: nat := 8380417             // 2^23 - 2^13 + 1
  const R: nat := 0x1_0000_0000       // 2^32
  const U64: nat := 0x1_0000_0000_0000_0000
  const RR: nat := 2365951            // R^2 mod q
  const R_INV: nat := 8265825         // R^-1 mod q
  const Q_NEG_INV: nat := 4236238847  // -q^-1 mod R
  const ONE: FieldElement := 4193792  // 1 in Montgomery form
  const MINUS_ONE: FieldElement := 4186625

  type FieldElement = x: nat | x < 8380417

  datatype ToMontgomeryResult = Reduced(element: FieldElement) | Unreduced

  //////////////////////////////////////////////////////////////////////////////
  // Remainders
  //////////////////////////////////////////////////////////////////////////////

  /** Quotient and remainder by q are unique. */
  lemma ModIs(x: int, k: int, r: int)
    requires x == k * 8380417 + r && 0 <= r < 8380417
    ensures x % 8380417 == r
  {
  }

  /** A factor may be reduced before it is multiplied: the products differ by a multiple of q. */
  lemma ReduceFactor(x: int, y: int) returns (k: int)
    ensures x * y == (x % 8380417) * y + k * 8380417
  {
    var d, m := x / 8380417, x % 8380417;
    k := d * y;
    assert x == d * 8380417 + m;
    assert x * y == d * 8380417 * y + m * y;
  }

  /** Adding a multiple of q changes no remainder. */
  lemma ModAddMultiple(x: int, k: int)
    ensures (x + k * 8380417) % 8380417 == x % 8380417
  {
    ModIs(x + k * 8380417, x / 8380417 + k, x % 8380417);
  }

  //////////////////////////////////////////////////////////////////////////////
  // Operations of field.go
  //////////////////////////////////////////////////////////////////////////////

  /** fieldReduceOnce: bits.Sub64 yields the wrapped difference and the borrow. */
  function ReduceOnce(a: nat): (r: FieldElement)
    requires a < 2 * Q
    ensures r == a % Q
  {
    var x := (a - Q) % U64;
    var borrow := if a < Q then 1 else 0;
    ((x + borrow * Q) % U64) % R
  }

  /** fieldAdd. */
  function Add(a: FieldElement, b: FieldElement): (r: FieldElement)
  {
    ReduceOnce((a + b) % R)
  }

  lemma AddExact(a: FieldElement, b: FieldElement)
    ensures Add(a, b) == (a + b) % 8380417
  {
    assert (a + b) % R == a + b;
  }

  /** fieldSub: a - b + q in uint32 arithmetic. */
  function Sub(a: FieldElement, b: FieldElement): (r: FieldElement)
  {
    ReduceOnce((a - b + Q) % R)
  }

  lemma SubExact(a: FieldElement, b: FieldElement)
    ensures Sub(a, b) == (a - b) % 8380417
  {
    assert (a - b + Q) % R == a - b + 8380417;
  }

  /** The quotient computed inside fieldMontgomeryReduce is exact. */
  lemma MontgomeryQuotient(x: nat)
    requires x < Q * R
    ensures var t := ((x % R) * Q_NEG_INV) % R;
            var u := (x + t * Q) / R;
            && x + t * Q < U64
            && u < 2 * Q
            && u * R == x + t * Q
  {
    var low, high := x % 4294967296, x / 4294967296;
    var m, t := (low * 4236238847) / 4294967296, (low * 4236238847) % 4294967296;
    assert low * 4236238847 == m * 4294967296 + t;
    assert x == high * 4294967296 + low;
    var u := high + low * 8265825 - m * 8380417;
    assert x + t * 8380417 == u * 4294967296;
    assert (x + t * 8380417) / 4294967296 == u;
  }

  /** fieldMontgomeryReduce: x * R^-1 mod q for x < q * R. */
  function MontgomeryReduce(x: nat): (r: FieldElement)
    requires x < Q * R
    ensures r == (x * 8265825) % 8380417
  {
    MontgomeryReduced(x);
    var t := ((x % R) * Q_NEG_INV) % R;
    var u := ((x + t * Q) % U64) / R;
    ReduceOnce(u % R)
  }

  lemma MontgomeryReduced(x: nat)
    requires x < Q * R
    ensures var t := ((x % R) * Q_NEG_INV) % R;
            var u := ((x + t * Q) % U64) / R;
            u % R < 2 * Q && (u % R) % Q == (x * 8265825) % 8380417
  {
    MontgomeryQuotient(x);
    var t := ((x % R) * Q_NEG_INV) % R;
    SmallMod(x + t * Q, U64);
    var u := (x + t * Q) / R;
    SmallMod(u, R);
    MontgomeryReduceExact(x, t, u);
  }

  lemma MontgomeryReduceExact(x: nat, t: nat, u: nat)
    requires u < 2 * Q && u * R == x + t * Q
    ensures u % Q == (x * 8265825) % 8380417
  {
    // 8265825 is the inverse of R modulo q: multiply the equation by it.
    assert 4294967296 * 8265825 == 1 + 4236238847 * 8380417;
    var k := u * 4236238847 - t * 8265825;
    assert x * 8265825 == u + k * 8380417 by {
      assert (x + t * 8380417) * 8265825 == u * 4294967296 * 8265825;
    }
    ModAddMultiple(u, k);
  }

  /** fieldMontgomeryMul. */
  function Mul(a: FieldElement, b: FieldElement): (r: FieldElement)
  {
    ProductBound(a, b);
    MontgomeryReduce(a * b)
  }

  lemma MulExact(a: FieldElement, b: FieldElement)
    ensures Mul(a, b) == (a * b * 8265825) % 8380417
  {
    hide MontgomeryReduce;
    ProductBound(a, b);
  }

  lemma ProductNonnegative(x: nat, y: nat)
    ensures x * y >= 0
  {
  }

  lemma ProductBound(a: nat, b: nat)
    requires a < Q && b < 2 * Q
    ensures 0 <= a * b <= 8380416 * 16760833 < 8380417 * 4294967296
  {
    ProductNonnegative(8380416 - a, b);
    ProductNonnegative(a, b);
    assert (8380416 - a) * b == 8380416 * b - a * b;
  }

  /** fieldMontgomeryMulSub: a * (b - c), one reduction for both steps. */
  function MulSub(a: FieldElement, b: FieldElement, c: FieldElement): (r: FieldElement)
  {
    MulSubShift(a, b, c);
    MontgomeryReduce(a * ((b - c + Q) % R))
  }

  lemma MulSubExact(a: FieldElement, b: FieldElement, c: FieldElement)
    ensures MulSub(a, b, c) == (a * (b - c) * 8265825) % 8380417
  {
    hide MontgomeryReduce;
    MulSubShift(a, b, c);
  }

  lemma MulSubShift(a: FieldElement, b: FieldElement, c: FieldElement)
    ensures 0 <= a * ((b - c + Q) % R) < Q * R
    ensures (a * ((b - c + Q) % R) * 8265825) % 8380417 == (a * (b - c) * 8265825) % 8380417
  {
    var d := b - c + 8380417;
    assert (b - c + Q) % R == d;
    ProductBound(a, d);
    assert a * d * 8265825 == a * (b - c) * 8265825 + (a * 8265825) * 8380417;
    ModAddMultiple(a * (b - c) * 8265825, a * 8265825);
  }

  /** fieldMontgomeryAddMul: a * b + c * d, one reduction for both products. */
  function AddMul(a: FieldElement, b: FieldElement, c: FieldElement, d: FieldElement): (r: FieldElement)
  {
    AddMulBound(a, b, c, d);
    MontgomeryReduce((a * b + c * d) % U64)
  }

  lemma AddMulExact(a: FieldElement, b: FieldElement, c: FieldElement, d: FieldElement)
    ensures AddMul(a, b, c, d) == ((a * b + c * d) * 8265825) % 8380417
  {
    hide MontgomeryReduce;
    AddMulBound(a, b, c, d);
  }

  lemma AddMulBound(a: FieldElement, b: FieldElement, c: FieldElement, d: FieldElement)
    ensures 0 <= a * b + c * d < Q * R
    ensures (a * b + c * d) % U64 == a * b + c * d
  {
    ProductBound(a, b);
    ProductBound(c, d);
    SmallMod(a * b + c * d, U64);
  }

  lemma SmallMod(x: nat, m: nat)
    requires x < m
    ensures x % m == x
  {
  }

  /** fieldToMontgomery. */
  function ToMontgomery(a: nat): (r: ToMontgomeryResult)
    ensures r.Reduced? <==> a < 8380417
    ensures r.Reduced? ==> r.element == (a * 4294967296) % 8380417
  {
    if a >= Q then Unreduced
    else
      hide Mul;
      TimesRR(a);
      MulExact(a, RR);
      Reduced(Mul(a, RR))
  }

  lemma TimesRR(x: int)
    ensures (x * 2365951 * 8265825) % 8380417 == (x * 4294967296) % 8380417
  {
    var k := (RR * R_INV - R) / Q;
    assert 2365951 * 8265825 == 4294967296 + k * 8380417;
    assert x * 2365951 * 8265825 == x * 4294967296 + (x * k) * 8380417;
    ModAddMultiple(x * 4294967296, x * k);
  }

  /** fieldSubToMontgomery: the Montgomery form of a - b. */
  function SubToMontgomery(a: FieldElement, b: FieldElement): (r: FieldElement)
  {
    var x := (a - b + Q) % R;
    MontgomeryReduce(x * RR)
  }

  lemma SubToMontgomeryExact(a: FieldElement, b: FieldElement)
    ensures SubToMontgomery(a, b) == ((a - b) * 4294967296) % 8380417
  {
    hide MontgomeryReduce;
    var x := (a - b + Q) % R;
    assert x == a - b + 8380417;
    TimesRR(x);
    ModAddMultiple((a - b) * 4294967296, 4294967296);
    assert x * 4294967296 == (a - b) * 4294967296 + 4294967296 * 8380417;
  }

  /** fieldFromMontgomery. */
  function FromMontgomery(a: FieldElement): (r: FieldElement)
  {
    MontgomeryReduce(a)
  }

  lemma FromExact(a: FieldElement)
    ensures FromMontgomery(a) == (a * 8265825) % 8380417
  {
    hide MontgomeryReduce;
  }

  /** fieldCenteredMod: r mod± q, in [-(q-1)/2, (q-1)/2]. */
  function CenteredMod(r: FieldElement): (c: int)
    ensures -4190208 <= c <= 4190208
  {
    var x := FromMontgomery(r);
    if x <= 4190208 then x else x - Q
  }

  /** fieldInfinityNorm: the absolute value of r mod± q. */
  function InfinityNorm(r: FieldElement): (n: nat)
    ensures n <= 4190208
    ensures n == CenteredMod(r) || n == -CenteredMod(r)
  {
    var x := FromMontgomery(r);
    if x <= 4190208 then x else Q - x
  }
}
