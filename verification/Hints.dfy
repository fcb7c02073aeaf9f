/**
 Rounding and hints of whole ring elements: highBits, makeHint, useHint and the
 bound checks of sign and verify, for both values of gamma2.
 */
module Hints {
  import opened Field
  import opened FieldRing
  import opened Poly
  import opened Rounding

  /** The denominator of gamma2 = (q - 1) / den in the parameter sets. */
  predicate Gamma2(den: nat)
  {
    den == 32 || den == 88
  }

  function Gamma2Value(den: nat): (g: nat)
    requires Gamma2(den)
  {
    if den == 32 then 261888 else 95232
  }

  function HighBitsOf(r: FieldElement, den: nat): (b: nat)
    requires Gamma2(den)
    ensures b < 44
  {
    if den == 32 then HighBits32(FromMontgomery(r)) else HighBits88(FromMontgomery(r))
  }

  function LowBitsOf(r: FieldElement, den: nat): (b: int)
    requires Gamma2(den)
  {
    if den == 32 then Decompose32(FromMontgomery(r)).r0 else Decompose88(FromMontgomery(r)).r0
  }

  /** makeHint32 and makeHint88: 1 iff HighBits(w - cs2) != HighBits(w - cs2 + ct0). */
  function MakeHintOf(ct0: FieldElement, w: FieldElement, cs2: FieldElement, den: nat): (h: nat)
    requires Gamma2(den)
    ensures h <= 1
  {
    var v := Sub(w, cs2);
    var r := Add(v, ct0);
    if den == 32 then MakeHint32(FromMontgomery(v), FromMontgomery(r))
    else MakeHint88(FromMontgomery(v), FromMontgomery(r))
  }

  function UseHintOf(r: FieldElement, h: nat, den: nat): (b: nat)
    requires Gamma2(den)
    ensures b < 44
  {
    if den == 32 then
      hide Decompose32;
      Decompose32Splits(FromMontgomery(r));
      UseHint32(FromMontgomery(r), h)
    else
      hide Decompose88;
      Decompose88Splits(FromMontgomery(r));
      UseHint88(FromMontgomery(r), h)
  }

  /** The hint recovers the high bits of w - cs2 from w - cs2 + ct0, for every ct0 below gamma2. */
  lemma HintRecovers(ct0: FieldElement, w: FieldElement, cs2: FieldElement, den: nat)
    requires Gamma2(den) && InfinityNorm(ct0) < Gamma2Value(den)
    ensures UseHintOf(Add(Sub(w, cs2), ct0), MakeHintOf(ct0, w, cs2, den), den) == HighBitsOf(Sub(w, cs2), den)
  {
    hide FromMontgomery, Add, Sub, HighBits32, HighBits88, UseHint32, UseHint88, MakeHint32, MakeHint88;
    var v := Sub(w, cs2);
    var r := Add(v, ct0);
    FromShift(v, ct0);
    if den == 32 {
      HintRecovers32(FromMontgomery(v), CenteredMod(ct0), FromMontgomery(r));
    } else {
      HintRecovers88(FromMontgomery(v), CenteredMod(ct0), FromMontgomery(r));
    }
  }

  /** Small low bits of w - cs2 and a small cs2 leave the high bits of w unchanged. */
  lemma SmallLowBits(w: FieldElement, cs2: FieldElement, beta: nat, den: nat)
    requires Gamma2(den) && InfinityNorm(cs2) <= beta
    requires -(Gamma2Value(den) - beta as int) < LowBitsOf(Sub(w, cs2), den) < Gamma2Value(den) - beta
    ensures HighBitsOf(w, den) == HighBitsOf(Sub(w, cs2), den)
  {
    hide FromMontgomery, Add, Sub, HighBits32, HighBits88, Decompose32, Decompose88;
    var v := Sub(w, cs2);
    FromShift(w, cs2);
    var s := CenteredMod(cs2);
    assert FromMontgomery(w) == (FromMontgomery(v) + s) % 8380417;
    if den == 32 {
      SmallChange32(FromMontgomery(v), s, FromMontgomery(w), beta);
    } else {
      SmallChange88(FromMontgomery(v), s, FromMontgomery(w), beta);
    }
  }

  /** The number of high parts: (q - 1) / (2 gamma2). */
  function HighParts(den: nat): (m: nat)
    requires Gamma2(den)
    ensures m > 0
  {
    if den == 32 then 16 else 44
  }

  lemma HighBitsExact(r: FieldElement, den: nat)
    requires Gamma2(den)
    ensures HighBitsOf(r, den) == DecomposeSpec(FromMontgomery(r), 2 * Gamma2Value(den)).r1
    ensures LowBitsOf(r, den) == DecomposeSpec(FromMontgomery(r), 2 * Gamma2Value(den)).r0
  {
    hide FromMontgomery, HighBits32, HighBits88, DecomposeSpec;
    Decompose32Exact(FromMontgomery(r));
    Decompose88Exact(FromMontgomery(r));
  }

  /** UseHint of section 7.4 of FIPS 204. */
  lemma UseHintExact(r: FieldElement, h: nat, den: nat)
    requires Gamma2(den) && h <= 1
    ensures UseHintOf(r, h, den)
            == HintedPart(DecomposeSpec(FromMontgomery(r), 2 * Gamma2Value(den)), h, HighParts(den))
  {
    hide FromMontgomery, UseHint32, UseHint88, DecomposeSpec, HintedPart;
    UseHint32Exact(FromMontgomery(r), h);
    UseHint88Exact(FromMontgomery(r), h);
  }

  /** MakeHint: 1 exactly when adding ct0 changes the high part. */
  lemma MakeHintExact(ct0: FieldElement, w: FieldElement, cs2: FieldElement, den: nat)
    requires Gamma2(den)
    ensures var v := (FromMontgomery(w) - FromMontgomery(cs2)) % 8380417;
            var r := (v + FromMontgomery(ct0)) % 8380417;
            var alpha := 2 * Gamma2Value(den);
            MakeHintOf(ct0, w, cs2, den) == if DecomposeSpec(v, alpha).r1 == DecomposeSpec(r, alpha).r1 then 0 else 1
  {
    hide FromMontgomery, Add, Sub, DecomposeSpec, HighBits32, HighBits88;
    FromSub(w, cs2);
    FromAdd(Sub(w, cs2), ct0);
    HighBitsExact(Sub(w, cs2), den);
    HighBitsExact(Add(Sub(w, cs2), ct0), den);
  }

  //////////////////////////////////////////////////////////////////////////////
  // Ring elements
  //////////////////////////////////////////////////////////////////////////////

  type Bits = seq<nat>

  function HighBitsSpec(r: Polynomial, den: nat): (w: Bits)
    requires Gamma2(den)
    ensures |w| == |r| && forall i :: 0 <= i < |r| ==> w[i] == HighBitsOf(r[i], den)
  {
    seq(|r|, i requires 0 <= i < |r| => HighBitsOf(r[i], den))
  }

  function MakeHintSpec(ct0: Polynomial, w: Polynomial, cs2: Polynomial, den: nat): (h: Bits)
    requires Gamma2(den) && |ct0| == |w| == |cs2|
    ensures |h| == |w| && forall i :: 0 <= i < |w| ==> h[i] == MakeHintOf(ct0[i], w[i], cs2[i], den)
  {
    seq(|w|, i requires 0 <= i < |w| => MakeHintOf(ct0[i], w[i], cs2[i], den))
  }

  function UseHintSpec(r: Polynomial, h: Bits, den: nat): (w: Bits)
    requires Gamma2(den) && |r| == |h|
    ensures |w| == |r| && forall i :: 0 <= i < |r| ==> w[i] == UseHintOf(r[i], h[i], den)
  {
    seq(|r|, i requires 0 <= i < |r| => UseHintOf(r[i], h[i], den))
  }

  /** The number of hints set. */
  function Ones(h: Bits): (n: nat)
  {
    if h == [] then 0 else Ones(h[..|h| - 1]) + (if h[|h| - 1] != 0 then 1 else 0)
  }

  ghost predicate NormBelow(f: Polynomial, bound: nat)
  {
    forall i :: 0 <= i < |f| ==> InfinityNorm(f[i]) < bound
  }

  ghost predicate LowBitsBelow(f: Polynomial, bound: int, den: nat)
    requires Gamma2(den)
  {
    forall i :: 0 <= i < |f| ==> -bound < LowBitsOf(f[i], den) < bound
  }

  /** highBits. */
  method HighBits(r: Polynomial, den: nat) returns (w: Bits)
    requires Gamma2(den)
    ensures w == HighBitsSpec(r, den)
  {
    hide *;
    w := [];
    for i := 0 to |r|
      invariant |w| == i && forall j :: 0 <= j < i ==> w[j] == HighBitsOf(r[j], den)
    {
      w := w + [HighBitsOf(r[i], den)];
    }
  }

  /** useHint. */
  method UseHint(r: Polynomial, h: Bits, den: nat) returns (w: Bits)
    requires Gamma2(den) && |r| == |h|
    ensures w == UseHintSpec(r, h, den)
  {
    hide *;
    w := [];
    for i := 0 to |r|
      invariant |w| == i && forall j :: 0 <= j < i ==> w[j] == UseHintOf(r[j], h[j], den)
    {
      w := w + [UseHintOf(r[i], h[i], den)];
    }
  }

  /** makeHint, with the number of ones. */
  method MakeHint(ct0: Polynomial, w: Polynomial, cs2: Polynomial, den: nat) returns (h: Bits, count1s: nat)
    requires Gamma2(den) && |ct0| == |w| == |cs2|
    ensures h == MakeHintSpec(ct0, w, cs2, den) && count1s == Ones(h)
  {
    hide MakeHintOf, MakeHintSpec, Gamma2;
    h, count1s := [], 0;
    for i := 0 to |w|
      invariant |h| == i && forall j :: 0 <= j < i ==> h[j] == MakeHintOf(ct0[j], w[j], cs2[j], den)
      invariant count1s == Ones(h)
    {
      var hint := MakeHintOf(ct0[i], w[i], cs2[i], den);
      assert (h + [hint])[..i] == h;
      h := h + [hint];
      count1s := count1s + hint;
    }
  }

  /** coefficientsExceedBound. */
  method CoefficientsExceedBound(w: Polynomial, bound: nat) returns (exceeds: bool)
    ensures exceeds <==> !NormBelow(w, bound)
  {
    hide InfinityNorm;
    for i := 0 to |w|
      invariant forall j :: 0 <= j < i ==> InfinityNorm(w[j]) < bound
    {
      if InfinityNorm(w[i]) >= bound {
        return true;
      }
    }
    return false;
  }

  /** lowBitsExceedBound. */
  method LowBitsExceedBound(w: Polynomial, bound: nat, den: nat) returns (exceeds: bool)
    requires Gamma2(den)
    ensures exceeds <==> !LowBitsBelow(w, bound, den)
  {
    hide LowBitsOf, Gamma2;
    for i := 0 to |w|
      invariant forall j :: 0 <= j < i ==> -(bound as int) < LowBitsOf(w[j], den) < bound
    {
      var r0 := LowBitsOf(w[i], den);
      var abs := if 0 <= r0 then r0 else -r0;
      if abs >= bound {
        return true;
      }
    }
    return false;
  }

  /**
   The hint theorem for ring elements: with the bounds that sign enforces, the
   verifier's useHint on w - cs2 + ct0 yields exactly the signer's highBits of w.
   */
  lemma HintTheorem(ct0: Polynomial, w: Polynomial, cs2: Polynomial, beta: nat, den: nat)
    requires Gamma2(den) && |ct0| == |w| == |cs2|
    requires NormBelow(ct0, Gamma2Value(den))
    requires NormBelow(cs2, beta + 1)
    requires LowBitsBelow(PolySub(w, cs2), Gamma2Value(den) - beta, den)
    ensures UseHintSpec(PolyAdd(PolySub(w, cs2), ct0), MakeHintSpec(ct0, w, cs2, den), den) == HighBitsSpec(w, den)
  {
    hide Add, Sub, HighBitsOf, LowBitsOf, UseHintOf, MakeHintOf, InfinityNorm, PolyAdd, PolySub;
    hide HighBitsSpec, UseHintSpec, MakeHintSpec, Gamma2, Gamma2Value;
    var r := PolyAdd(PolySub(w, cs2), ct0);
    var h := MakeHintSpec(ct0, w, cs2, den);
    forall i | 0 <= i < |w|
      ensures UseHintSpec(r, h, den)[i] == HighBitsSpec(w, den)[i]
    {
      assert LowBitsOf(PolySub(w, cs2)[i], den) < Gamma2Value(den) - beta;
      HintRecovers(ct0[i], w[i], cs2[i], den);
      SmallLowBits(w[i], cs2[i], beta, den);
    }
  }
}
