/**
 internal/mldsa/field.go, rounding part: Power2Round, Decompose and the hints of
 section 7.4 of FIPS 204. The code computes the high bits with a multiplication
 and a shift; here that is proved equal to the definition by division, and the
 hints are proved to recover the high bits.
 */
module Rounding {
  import opened Field
  import opened FieldRing

  //////////////////////////////////////////////////////////////////////////////
  // The definitions of FIPS 204
  //////////////////////////////////////////////////////////////////////////////

  /** x mod± m for even m: the remainder in (-m/2, m/2]. */
  function ModPlusMinus(x: int, m: nat): (r: int)
    requires m > 0
  {
    if x % m > m / 2 then x % m - m else x % m
  }

  datatype Decomposed = Decomposed(r1: nat, r0: int)

  /** Decompose of FIPS 204 for alpha = 2 * gamma2. */
  function DecomposeSpec(x: nat, alpha: nat): (r: Decomposed)
    requires x < 8380417 && alpha in {523776, 190464}
  {
    var r0 := ModPlusMinus(x, alpha);
    if x - r0 == 8380416 then Decomposed(0, r0 - 1)
    else Decomposed((x - r0) / alpha, r0)
  }

  //////////////////////////////////////////////////////////////////////////////
  // Power2Round
  //////////////////////////////////////////////////////////////////////////////

  datatype Rounded = Rounded(hi: nat, lo: FieldElement)

  /** power2Round. */
  function Power2Round(r: FieldElement): (p: Rounded)
  {
    var x: nat := FromMontgomery(r);
    var hi := (x + 4096 - 1) / 8192;
    assert hi * 8192 < 8380417;
    Rounded(hi, SubToMontgomery(x, hi * 8192))
  }

  /** r = hi * 2^13 + lo with hi of 10 bits and lo in (-2^12, 2^12]. */
  lemma Power2RoundExact(r: FieldElement)
    ensures var p := Power2Round(r);
            && p.hi <= 1023
            && FromMontgomery(r) == p.hi * 8192 + CenteredMod(p.lo)
            && -4096 < CenteredMod(p.lo) <= 4096
  {
    hide FromMontgomery, SubToMontgomery;
    var x: int := FromMontgomery(r);
    var hi: int := (x + 4096 - 1) / 8192;
    assert -4096 < x - hi * 8192 <= 4096 && 0 <= hi * 8192 < 8380417;
    FromSubToMontgomery(x, hi * 8192);
  }

  //////////////////////////////////////////////////////////////////////////////
  // gamma2 = (q - 1) / 32 = 261888, m = 16
  //////////////////////////////////////////////////////////////////////////////

  /** highBits32. */
  function HighBits32(x: nat): (r: nat)
    requires x < 8380417
    ensures r < 16
  {
    HighBits32Bound(x);
    var a := (x + 127) / 128;
    var b := ((a * 1025 + 0x20_0000) % 0x1_0000_0000) / 0x40_0000;
    b % 16
  }

  lemma HighBits32Bound(x: nat)
    requires x < 8380417
    ensures var a := (x + 127) / 128;
            var t := a * 1025 + 0x20_0000;
            && t < 0x1_0000_0000 && t / 0x40_0000 <= 16
            && 4092 * (t / 0x40_0000) - 2045 <= a <= 4092 * (t / 0x40_0000) + 2046
  {
    var a := (x + 127) / 128;
    assert 128 * a - 127 <= x <= 128 * a;
    var t := a * 1025 + 0x20_0000;
    var b := t / 0x40_0000;
    assert 0x40_0000 * b <= t < 0x40_0000 * b + 0x40_0000;
    assert b <= 16;
  }

  /** decompose32, on a value out of Montgomery form. */
  function Decompose32(x: nat): (r: Decomposed)
    requires x < 8380417
  {
    var r1 := HighBits32(x);
    var r0 := x - r1 * 2 * 8380416 / 32;
    Decomposed(r1, if 4190209 <= r0 then r0 - 8380417 else r0)
  }

  /** The values with high bits r1 and low bits r0. */
  predicate Splits32(x: int, r1: int, r0: int)
  {
    && 0 <= r1 < 16
    && (|| (x == r1 * 523776 + r0 && -261888 < r0 <= 261888)
        || (r1 == 0 && x == 8380417 + r0 && -261888 <= r0 < 0))
  }

  lemma Decompose32Splits(x: nat)
    requires x < 8380417
    ensures var r := Decompose32(x);
            && r.r1 == HighBits32(x) && Splits32(x, r.r1, r.r0)
            && r.r1 * 2 * 8380416 < 0x8000_0000
  {
    HighBits32Bound(x);
    var a := (x + 127) / 128;
    assert 128 * a - 127 <= x <= 128 * a;
    var b := (a * 1025 + 0x20_0000) / 0x40_0000;
    var r1 := HighBits32(x);
    assert r1 == if b == 16 then 0 else b;
    assert r1 * 2 * 8380416 / 32 == r1 * 523776;
  }

  /** High and low bits are determined by the value. */
  lemma Splits32Unique(x: int, r1: int, r0: int, s1: int, s0: int)
    requires 0 <= x < 8380417 && Splits32(x, r1, r0) && Splits32(x, s1, s0)
    ensures r1 == s1 && r0 == s0
  {
  }

  /** The multiply-and-shift form computes Decompose of FIPS 204. */
  lemma Decompose32Exact(x: nat)
    requires x < 8380417
    ensures Decompose32(x) == DecomposeSpec(x, 523776)
  {
    hide Decompose32, HighBits32;
    Decompose32Splits(x);
    var r := DecomposeSpec(x, 523776);
    var r0 := ModPlusMinus(x, 523776);
    var k := x / 523776;
    assert x == k * 523776 + x % 523776;
    assert x - r0 == k * 523776 || x - r0 == (k + 1) * 523776;
    assert Splits32(x, r.r1, r.r0);
    Splits32Unique(x, r.r1, r.r0, Decompose32(x).r1, Decompose32(x).r0);
  }

  /** useHint32, on a value out of Montgomery form. */
  function UseHint32(x: nat, hint: nat): (r: nat)
    requires x < 8380417
  {
    var d := Decompose32(x);
    if hint == 1 then
      // byte arithmetic modulo 256, then modulo 16
      if d.r0 > 0 then ((d.r1 + 1) % 256) % 16 else ((d.r1 - 1) % 256) % 16
    else d.r1
  }

  /** makeHint32, on values out of Montgomery form: 1 iff the high bits differ. */
  function MakeHint32(v: nat, r: nat): (h: nat)
    requires v < 8380417 && r < 8380417
  {
    if HighBits32(v) == HighBits32(r) then 0 else 1
  }

  /**
   Adding c, |c| < gamma2, moves the high bits by at most one; the hint and the
   sign of the low bits say in which direction.
   */
  lemma HintRecovers32(v: nat, c: int, r: nat)
    requires v < 8380417 && r < 8380417 && -261888 < c < 261888 && r == (v + c) % 8380417
    ensures UseHint32(r, MakeHint32(v, r)) == HighBits32(v)
  {
    hide HighBits32, Decompose32;
    Decompose32Splits(v);
    Decompose32Splits(r);
    var dv, dr := Decompose32(v), Decompose32(r);
    Wrapped(v, c, r);
    HintCases32(v, dv.r1, dv.r0, r, dr.r1, dr.r0, c);
    Neighbours(dr.r1);
  }

  lemma Wrapped(v: nat, c: int, r: nat)
    requires v < 8380417 && -8380417 < c < 8380417 && r == (v + c) % 8380417
    ensures r == v + c || r == v + c - 8380417 || r == v + c + 8380417
  {
  }

  /** The byte arithmetic of useHint32. */
  lemma Neighbours(r1: int)
    requires 0 <= r1 < 16
    ensures ((r1 + 1) % 256) % 16 == (if r1 == 15 then 0 else r1 + 1)
    ensures ((r1 - 1) % 256) % 16 == (if r1 == 0 then 15 else r1 - 1)
  {
  }

  lemma HintCases32(v: int, v1: int, v0: int, r: int, r1: int, r0: int, c: int)
    requires 0 <= v < 8380417 && 0 <= r < 8380417 && Splits32(v, v1, v0) && Splits32(r, r1, r0)
    requires -261888 < c < 261888 && (r == v + c || r == v + c - 8380417 || r == v + c + 8380417)
    ensures r1 == v1 || (r0 > 0 && v1 == (if r1 == 15 then 0 else r1 + 1))
                     || (r0 <= 0 && v1 == (if r1 == 0 then 15 else r1 - 1))
  {
  }

  /** A change of at most beta does not move high bits whose low bits are below gamma2 - beta. */
  lemma SmallChange32(v: nat, s: int, w: nat, beta: nat)
    requires v < 8380417 && w < 8380417 && w == (v + s) % 8380417
    requires -(beta as int) <= s <= beta
    requires -(261888 - beta as int) < Decompose32(v).r0 < 261888 - beta
    ensures HighBits32(w) == HighBits32(v)
  {
    hide HighBits32, Decompose32;
    Decompose32Splits(v);
    Decompose32Splits(w);
    var dv, dw := Decompose32(v), Decompose32(w);
    assert w == v + s || w == v + s - 8380417 || w == v + s + 8380417;
    var t := dv.r0 + s;
    assert -261888 < t < 261888;
    if w == dv.r1 * 523776 + t {
      Splits32Unique(w, dv.r1, t, dw.r1, dw.r0);
    } else {
      assert dv.r1 == 0;
      Splits32Unique(w, 0, t, dw.r1, dw.r0);
    }
  }

  //////////////////////////////////////////////////////////////////////////////
  // gamma2 = (q - 1) / 88 = 95232, m = 44
  //////////////////////////////////////////////////////////////////////////////

  /** highBits88. */
  function HighBits88(x: nat): (r: nat)
    requires x < 8380417
    ensures r < 44
  {
    HighBits88Bound(x);
    var a := (x + 127) / 128;
    var b := ((a * 11275 + 0x80_0000) % 0x1_0000_0000) / 0x100_0000;
    if b == 44 then 0 else b
  }

  lemma HighBits88Bound(x: nat)
    requires x < 8380417
    ensures var a := (x + 127) / 128;
            var t := a * 11275 + 0x80_0000;
            && t < 0x1_0000_0000 && t / 0x100_0000 <= 44
            && 1488 * (t / 0x100_0000) - 743 <= a <= 1488 * (t / 0x100_0000) + 744
  {
    var a := (x + 127) / 128;
    assert 128 * a - 127 <= x <= 128 * a;
    var t := a * 11275 + 0x80_0000;
    var b := t / 0x100_0000;
    assert 0x100_0000 * b <= t < 0x100_0000 * b + 0x100_0000;
    assert b <= 44;
  }

  /** decompose88, on a value out of Montgomery form. */
  function Decompose88(x: nat): (r: Decomposed)
    requires x < 8380417
  {
    var r1 := HighBits88(x);
    var r0 := x - r1 * 2 * 8380416 / 88;
    Decomposed(r1, if 4190209 <= r0 then r0 - 8380417 else r0)
  }

  /** The values with high bits r1 and low bits r0. */
  predicate Splits88(x: int, r1: int, r0: int)
  {
    && 0 <= r1 < 44
    && (|| (x == r1 * 190464 + r0 && -95232 < r0 <= 95232)
        || (r1 == 0 && x == 8380417 + r0 && -95232 <= r0 < 0))
  }

  lemma Decompose88Splits(x: nat)
    requires x < 8380417
    ensures var r := Decompose88(x);
            && r.r1 == HighBits88(x) && Splits88(x, r.r1, r.r0)
            && r.r1 * 2 * 8380416 < 0x8000_0000
  {
    HighBits88Bound(x);
    var a := (x + 127) / 128;
    assert 128 * a - 127 <= x <= 128 * a;
    var b := (a * 11275 + 0x80_0000) / 0x100_0000;
    var r1 := HighBits88(x);
    assert r1 == if b == 44 then 0 else b;
    assert r1 * 2 * 8380416 / 88 == r1 * 190464;
  }

  /** High and low bits are determined by the value. */
  lemma Splits88Unique(x: int, r1: int, r0: int, s1: int, s0: int)
    requires 0 <= x < 8380417 && Splits88(x, r1, r0) && Splits88(x, s1, s0)
    ensures r1 == s1 && r0 == s0
  {
  }

  /** The multiply-and-shift form computes Decompose of FIPS 204. */
  lemma Decompose88Exact(x: nat)
    requires x < 8380417
    ensures Decompose88(x) == DecomposeSpec(x, 190464)
  {
    hide Decompose88, HighBits88;
    Decompose88Splits(x);
    var r := DecomposeSpec(x, 190464);
    var r0 := ModPlusMinus(x, 190464);
    var k := x / 190464;
    assert x == k * 190464 + x % 190464;
    assert x - r0 == k * 190464 || x - r0 == (k + 1) * 190464;
    assert Splits88(x, r.r1, r.r0);
    Splits88Unique(x, r.r1, r.r0, Decompose88(x).r1, Decompose88(x).r0);
  }

  /** useHint88, on a value out of Montgomery form. */
  function UseHint88(x: nat, hint: nat): (r: nat)
    requires x < 8380417
  {
    var d := Decompose88(x);
    if hint == 1 then
      if d.r0 > 0 then
        if d.r1 == 43 then 0 else d.r1 + 1
      else
        if d.r1 == 0 then 43 else d.r1 - 1
    else d.r1
  }

  /** makeHint88, on values out of Montgomery form: 1 iff the high bits differ. */
  function MakeHint88(v: nat, r: nat): (h: nat)
    requires v < 8380417 && r < 8380417
  {
    if HighBits88(v) == HighBits88(r) then 0 else 1
  }

  /**
   Adding c, |c| < gamma2, moves the high bits by at most one; the hint and the
   sign of the low bits say in which direction.
   */
  lemma HintRecovers88(v: nat, c: int, r: nat)
    requires v < 8380417 && r < 8380417 && -95232 < c < 95232 && r == (v + c) % 8380417
    ensures UseHint88(r, MakeHint88(v, r)) == HighBits88(v)
  {
    hide HighBits88, Decompose88;
    Decompose88Splits(v);
    Decompose88Splits(r);
    var dv, dr := Decompose88(v), Decompose88(r);
    assert r == v + c || r == v + c - 8380417 || r == v + c + 8380417;
    HintCases88(v, dv.r1, dv.r0, r, dr.r1, dr.r0, c);
  }

  lemma HintCases88(v: int, v1: int, v0: int, r: int, r1: int, r0: int, c: int)
    requires 0 <= v < 8380417 && 0 <= r < 8380417 && Splits88(v, v1, v0) && Splits88(r, r1, r0)
    requires -95232 < c < 95232 && (r == v + c || r == v + c - 8380417 || r == v + c + 8380417)
    ensures r1 == v1 || (r0 > 0 && v1 == (if r1 == 43 then 0 else r1 + 1))
                     || (r0 <= 0 && v1 == (if r1 == 0 then 43 else r1 - 1))
  {
  }

  /** A change of at most beta does not move high bits whose low bits are below gamma2 - beta. */
  lemma SmallChange88(v: nat, s: int, w: nat, beta: nat)
    requires v < 8380417 && w < 8380417 && w == (v + s) % 8380417
    requires -(beta as int) <= s <= beta
    requires -(95232 - beta as int) < Decompose88(v).r0 < 95232 - beta
    ensures HighBits88(w) == HighBits88(v)
  {
    hide HighBits88, Decompose88;
    Decompose88Splits(v);
    Decompose88Splits(w);
    var dv, dw := Decompose88(v), Decompose88(w);
    assert w == v + s || w == v + s - 8380417 || w == v + s + 8380417;
    var t := dv.r0 + s;
    assert -95232 < t < 95232;
    if w == dv.r1 * 190464 + t {
      Splits88Unique(w, dv.r1, t, dw.r1, dw.r0);
    } else {
      assert dv.r1 == 0;
      Splits88Unique(w, 0, t, dw.r1, dw.r0);
    }
  }


  //////////////////////////////////////////////////////////////////////////////
  // Use of a hint, as FIPS 204 defines it
  //////////////////////////////////////////////////////////////////////////////

  /** UseHint of section 7.4 for m high parts: the high part, or its neighbour on the side of the low part. */
  function HintedPart(d: Decomposed, h: nat, m: nat): (r: int)
    requires m > 0
  {
    if h == 0 then d.r1 else if d.r0 > 0 then (d.r1 + 1) % m else (d.r1 - 1) % m
  }

  lemma Wheel(r1: nat, m: nat)
    requires r1 < m && (m == 16 || m == 44)
    ensures (r1 + 1) % m == (if r1 == m - 1 then 0 else r1 + 1)
    ensures (r1 - 1) % m == (if r1 == 0 then m - 1 else r1 - 1)
  {
  }

  lemma UseHint32Exact(x: nat, h: nat)
    requires x < 8380417 && h <= 1
    ensures UseHint32(x, h) == HintedPart(DecomposeSpec(x, 523776), h, 16)
  {
    hide Decompose32, DecomposeSpec, Splits32;
    Decompose32Exact(x);
    Below16(x);
    ByteWheel(Decompose32(x).r1);
  }

  lemma Below16(x: nat)
    requires x < 8380417
    ensures Decompose32(x).r1 < 16
  {
    hide Decompose32;
    Decompose32Splits(x);
  }

  lemma ByteWheel(r1: nat)
    requires r1 < 16
    ensures ((r1 + 1) % 256) % 16 == (r1 + 1) % 16 && ((r1 - 1) % 256) % 16 == (r1 - 1) % 16
  {
    Neighbours(r1);
    Wheel(r1, 16);
  }

  lemma UseHint88Exact(x: nat, h: nat)
    requires x < 8380417 && h <= 1
    ensures UseHint88(x, h) == HintedPart(DecomposeSpec(x, 190464), h, 44)
  {
    hide Decompose88, DecomposeSpec;
    Decompose88Exact(x);
    Decompose88Splits(x);
    Wheel(Decompose88(x).r1, 44);
  }
}
