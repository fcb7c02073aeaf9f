/**
 Bit packing (section 7.1 of FIPS 204): the shifts, ors and masks of bitPack18,
 bitPack20, pkEncode, w1Encode and their inverses, one chunk of whole bytes at a
 time, and the packing of whole polynomials by chunks.
 */
module Packing {
  import opened Field
  import opened FieldRing
  import opened Zetas
  import opened Poly
  import opened Bytes
  import opened Blocks

  //////////////////////////////////////////////////////////////////////////////
  // Digits
  //////////////////////////////////////////////////////////////////////////////

  /** A number cut at two places and put together again, for each cut the codecs make. */
  lemma Cut(w: nat, a: nat, b: nat)
    requires a > 0 && b > 0
    ensures w % a + (w / a % b) * a + (w / a / b) * (a * b) == w
  {
    var t := w / a;
    assert w == t * a + w % a;
    assert t == (t / b) * b + t % b;
    assert t * a == (t / b) * b * a + (t % b) * a;
    assert (t / b) * b * a == (t / b) * (a * b);
  }

  /** The parts of a number made of a low part, a byte and a high part. */
  lemma Parts(lo: nat, mid: nat, hi: nat, a: nat, b: nat)
    requires lo < a && mid < b
    ensures var w := lo + mid * a + hi * (a * b);
            w % a == lo && w / a % b == mid && w / a / b == hi
  {
    var w := lo + mid * a + hi * (a * b);
    var t := mid + hi * b;
    assert w == t * a + lo by {
      assert t * a == mid * a + hi * b * a;
      assert hi * b * a == hi * (a * b);
    }
    UniqueQuotient(w, t, lo, a);
    UniqueQuotient(t, hi, mid, b);
  }

  /** Two fields sharing a byte. */
  lemma Shared(lo: nat, hi: nat, m: nat)
    requires lo < m
    ensures (lo + hi * m) % m == lo && (lo + hi * m) / m == hi
  {
    UniqueQuotient(lo + hi * m, hi, lo, m);
  }

  /** The bits of x shifted left that stay in the byte. */
  lemma ShiftLeft(x: nat, s: nat, t: nat)
    requires s > 0 && t > 0 && s * t == 256
    ensures (x * s) % 256 == (x % t) * s
  {
    var k := x / t;
    assert x == k * t + x % t;
    assert x * s == k * t * s + (x % t) * s;
    assert k * t * s == k * (s * t);
    assert (x % t) * s <= (t - 1) * s;
    assert (t - 1) * s == t * s - s && t * s == s * t;
    UniqueQuotient(x * s, k, (x % t) * s, 256);
  }

  lemma DivDiv(w: nat, a: nat, b: nat)
    requires a > 0 && b > 0
    ensures w / a / b == w / (a * b)
  {
    Cut(w, a, b);
    var r := w % a + (w / a % b) * a;
    assert (w / a % b) * a <= (b - 1) * a;
    assert (b - 1) * a == b * a - a && b * a == a * b;
    UniqueQuotient(w, w / a / b, r, a * b);
  }

  //////////////////////////////////////////////////////////////////////////////
  // Fields of consecutive bytes
  //////////////////////////////////////////////////////////////////////////////

  /** The byte shared by the top bits hi of one field and the low bits of the next field w. */
  function SharedByte(hi: nat, w: nat, s: nat): (b: byte)
  {
    ToByte(Or(ToByte(hi), ToByte(w * s)))
  }

  lemma SharedByteExact(hi: nat, w: nat, n: nat, s: nat, t: nat)
    requires s == Pow2(n) && hi < s && t > 0 && s * t == 256
    ensures SharedByte(hi, w, s) == hi + (w % t) * s
    ensures SharedByte(hi, w, s) % s == hi && SharedByte(hi, w, s) / s == w % t
  {
    hide Or, Pow2;
    ShiftLeft(w, s, t);
    BelowProduct(w % t, hi, t, s);
    SmallMod(hi, 256);
    SmallMod(hi + (w % t) * s, 256);
    OrMultiple(hi, w % t, s, n);
    Shared(hi, w % t, s);
  }

  lemma BelowProduct(x: nat, lo: nat, t: nat, s: nat)
    requires x < t && lo < s
    ensures lo + x * s < s * t
  {
    assert x * s <= (t - 1) * s;
    assert (t - 1) * s == s * t - s;
  }

  /** A field of bits read from a low part, a whole byte and the low bits of a third byte. */
  function ReadField(lo: nat, mid: nat, top: nat, a: nat, width: nat): (w: nat)
    requires width > 0
    ensures w < width
  {
    Or(Or(lo, mid * a), top * (a * 256)) % width
  }

  lemma ReadFieldExact(lo: nat, mid: nat, top: nat, n: nat, a: nat, b: nat, t: nat, width: nat)
    requires a == Pow2(n) && lo < a && mid < 256 && t > 0 && b == a * 256 && width == b * t && width > 0
    ensures ReadField(lo, mid, top, a, width) == lo + mid * a + (top % t) * b
  {
    hide Or, Pow2;
    var base := lo + mid * a;
    BelowProduct(mid, lo, 256, a);
    Pow2Sum(n, 8);
    OrMultiple(lo, mid, a, n);
    OrMultiple(base, top, b, n + 8);
    ReduceTop(base, top, b, t);
  }

  /** Or with a multiple of a power of two above the other operand. */
  lemma OrMultiple(lo: nat, k: nat, a: nat, n: nat)
    requires a == Pow2(n) && lo < a
    ensures Or(lo, k * a) == lo + k * a
  {
    hide Or, Pow2;
    MultipleMod(a, k);
    Commute(a, k);
    OrDisjoint(lo, k * a, n);
  }

  lemma Commute(x: int, y: int)
    ensures x * y == y * x
  {
  }

  lemma ReduceTop(base: nat, top: nat, b: nat, t: nat)
    requires base < b && t > 0
    ensures b * t > 0
    ensures (base + top * b) % (b * t) == base + (top % t) * b
  {
    var k := top / t;
    assert top == k * t + top % t;
    assert top * b == k * t * b + (top % t) * b;
    assert k * t * b == k * (b * t);
    BelowProduct(top % t, base, t, b);
    UniqueQuotient(base + top * b, k, base + (top % t) * b, b * t);
  }

  /** Reading back the three parts of a field returns it. */
  lemma FieldRoundTrip(w: nat, top: nat, n: nat, a: nat, b: nat, t: nat, width: nat)
    requires a == Pow2(n) && t > 0 && b == a * 256 && b > 0 && width == b * t && w < width
    requires top % t == w / b % t
    ensures w / b < t
    ensures ReadField(w % a, w / a % 256, top, a, width) == w
  {
    hide ReadField, Pow2;
    Cut(w, a, 256);
    DivDiv(w, a, 256);
    QuotientBelow(w, b, t);
    ReadFieldExact(w % a, w / a % 256, top, n, a, b, t, width);
  }

  lemma QuotientBelow(w: nat, b: nat, t: nat)
    requires b > 0 && w < b * t
    ensures w / b < t && w / b % t == w / b
  {
    var hi := w / b;
    assert w == hi * b + w % b;
    if hi >= t {
      ProductGrows(t, hi, b);
      assert false;
    }
    SmallMod(hi, t);
  }

  lemma ProductGrows(x: nat, y: nat, b: nat)
    requires x <= y
    ensures b * x <= y * b
  {
    assert y * b == b * x + (y - x) * b;
  }

  /** The three parts of a field that was read are the parts it was read from. */
  lemma FieldCanonical(lo: nat, mid: nat, top: nat, n: nat, a: nat, b: nat, t: nat, width: nat)
    requires a == Pow2(n) && lo < a && mid < 256 && t > 0 && b == a * 256 && width == b * t && width > 0
    ensures var w := ReadField(lo, mid, top, a, width);
            w % a == lo && w / a % 256 == mid && w / b == top % t
  {
    hide ReadField, Pow2;
    ReadFieldExact(lo, mid, top, n, a, b, t, width);
    var w := ReadField(lo, mid, top, a, width);
    Parts(lo, mid, top % t, a, 256);
    DivDiv(w, a, 256);
  }

  //////////////////////////////////////////////////////////////////////////////
  // Four 18-bit fields in nine bytes
  //////////////////////////////////////////////////////////////////////////////

  /** The shifts and ors of bitPack18. */
  function PackChunk18(w0: nat, w1: nat, w2: nat, w3: nat): (v: seq<byte>)
    ensures |v| == 9
  {
    [ToByte(w0), ToByte(w0 / 0x100),
     SharedByte(w0 / 0x1_0000, w1, 4), ToByte(w1 / 0x40),
     SharedByte(w1 / 0x4000, w2, 0x10), ToByte(w2 / 0x10),
     SharedByte(w2 / 0x1000, w3, 0x40), ToByte(w3 / 4), ToByte(w3 / 0x400)]
  }

  /** The shifts, ors and masks of bitUnpack18. */
  function UnpackChunk18(v: seq<byte>): (w: seq<nat>)
    requires |v| == 9
    ensures |w| == 4 && forall i :: 0 <= i < 4 ==> w[i] < 0x4_0000
  {
    [ReadField(v[0], v[1], v[2], 0x100, 0x4_0000),
     ReadField(v[2] / 4, v[3], v[4], 0x40, 0x4_0000),
     ReadField(v[4] / 0x10, v[5], v[6], 0x10, 0x4_0000),
     ReadField(v[6] / 0x40, v[7], v[8], 4, 0x4_0000)]
  }

  lemma ChunkRoundTrip18(w0: nat, w1: nat, w2: nat, w3: nat)
    requires w0 < 0x4_0000 && w1 < 0x4_0000 && w2 < 0x4_0000 && w3 < 0x4_0000
    ensures UnpackChunk18(PackChunk18(w0, w1, w2, w3)) == [w0, w1, w2, w3]
  {
    hide ReadField, SharedByte;
    Pow2Values();
    var v := PackChunk18(w0, w1, w2, w3);
    SharedByteExact(w0 / 0x1_0000, w1, 2, 4, 0x40);
    SharedByteExact(w1 / 0x4000, w2, 4, 0x10, 0x10);
    SharedByteExact(w2 / 0x1000, w3, 6, 0x40, 4);
    FieldRoundTrip(w0, v[2], 8, 0x100, 0x1_0000, 4, 0x4_0000);
    FieldRoundTrip(w1, v[4], 6, 0x40, 0x4000, 0x10, 0x4_0000);
    FieldRoundTrip(w2, v[6], 4, 0x10, 0x1000, 0x40, 0x4_0000);
    FieldRoundTrip(w3, v[8], 2, 4, 0x400, 0x100, 0x4_0000);
  }

  lemma ChunkCanonical18(v: seq<byte>)
    requires |v| == 9
    ensures var w := UnpackChunk18(v); PackChunk18(w[0], w[1], w[2], w[3]) == v
  {
    hide ReadField, SharedByte;
    Pow2Values();
    var w := UnpackChunk18(v);
    FieldCanonical(v[0], v[1], v[2], 8, 0x100, 0x1_0000, 4, 0x4_0000);
    FieldCanonical(v[2] / 4, v[3], v[4], 6, 0x40, 0x4000, 0x10, 0x4_0000);
    FieldCanonical(v[4] / 0x10, v[5], v[6], 4, 0x10, 0x1000, 0x40, 0x4_0000);
    FieldCanonical(v[6] / 0x40, v[7], v[8], 2, 4, 0x400, 0x100, 0x4_0000);
    SharedByteExact(w[0] / 0x1_0000, w[1], 2, 4, 0x40);
    SharedByteExact(w[1] / 0x4000, w[2], 4, 0x10, 0x10);
    SharedByteExact(w[2] / 0x1000, w[3], 6, 0x40, 4);
  }

  //////////////////////////////////////////////////////////////////////////////
  // Two 20-bit fields in five bytes
  //////////////////////////////////////////////////////////////////////////////

  /** The shifts and ors of bitPack20. */
  function PackChunk20(w0: nat, w1: nat): (v: seq<byte>)
    ensures |v| == 5
  {
    [ToByte(w0), ToByte(w0 / 0x100), SharedByte(w0 / 0x1_0000, w1, 0x10), ToByte(w1 / 0x10), ToByte(w1 / 0x1000)]
  }

  /** The shifts, ors and masks of bitUnpack20. */
  function UnpackChunk20(v: seq<byte>): (w: seq<nat>)
    requires |v| == 5
    ensures |w| == 2 && w[0] < 0x10_0000 && w[1] < 0x10_0000
  {
    [ReadField(v[0], v[1], v[2], 0x100, 0x10_0000), ReadField(v[2] / 0x10, v[3], v[4], 0x10, 0x10_0000)]
  }

  lemma ChunkRoundTrip20(w0: nat, w1: nat)
    requires w0 < 0x10_0000 && w1 < 0x10_0000
    ensures UnpackChunk20(PackChunk20(w0, w1)) == [w0, w1]
  {
    hide ReadField, SharedByte;
    Pow2Values();
    var v := PackChunk20(w0, w1);
    SharedByteExact(w0 / 0x1_0000, w1, 4, 0x10, 0x10);
    FieldRoundTrip(w0, v[2], 8, 0x100, 0x1_0000, 0x10, 0x10_0000);
    FieldRoundTrip(w1, v[4], 4, 0x10, 0x1000, 0x100, 0x10_0000);
  }

  lemma ChunkCanonical20(v: seq<byte>)
    requires |v| == 5
    ensures var w := UnpackChunk20(v); PackChunk20(w[0], w[1]) == v
  {
    hide ReadField, SharedByte;
    Pow2Values();
    var w := UnpackChunk20(v);
    FieldCanonical(v[0], v[1], v[2], 8, 0x100, 0x1_0000, 0x10, 0x10_0000);
    FieldCanonical(v[2] / 0x10, v[3], v[4], 4, 0x10, 0x1000, 0x100, 0x10_0000);
    SharedByteExact(w[0] / 0x1_0000, w[1], 4, 0x10, 0x10);
  }

  //////////////////////////////////////////////////////////////////////////////
  // Four 10-bit fields in five bytes
  //////////////////////////////////////////////////////////////////////////////

  /** The shifts and ors of pkEncode. */
  function PackChunk10(c0: nat, c1: nat, c2: nat, c3: nat): (v: seq<byte>)
    ensures |v| == 5
  {
    [ToByte(c0), ToByte(Or(c0 / 0x100, c1 * 4)), ToByte(Or(c1 / 0x40, c2 * 0x10)),
     ToByte(Or(c2 / 0x10, c3 * 0x40)), ToByte(c3 / 4)]
  }

  /** The shifts, ors and masks of pkDecode. */
  function UnpackChunk10(v: seq<byte>): (c: seq<nat>)
    requires |v| == 5
    ensures |c| == 4
  {
    var b0: nat, b1: nat, b2: nat, b3: nat, b4: nat := v[0], v[1], v[2], v[3], v[4];
    [Or(b0, (b1 % 4) * 0x100), Or(b1 / 4, (b2 % 0x10) * 0x40),
     Or(b2 / 0x10, (b3 % 0x40) * 0x10), Or(b3 / 0x40, (b4 % 0x100) * 4)]
  }

  lemma OrShifted(hi: nat, w: nat, n: nat, s: nat, t: nat)
    requires s == Pow2(n) && hi < s && t > 0 && s * t == 256
    ensures ToByte(Or(hi, w * s)) == hi + (w % t) * s
    ensures ToByte(Or(hi, w * s)) % s == hi && ToByte(Or(hi, w * s)) / s == w % t
  {
    hide Or, Pow2;
    OrMultiple(hi, w, s, n);
    ReduceTop(hi, w, s, t);
    Shared(hi, w % t, s);
  }

  lemma OrHigh(lo: nat, top: nat, n: nat, a: nat, t: nat)
    requires a == Pow2(n) && lo < a && t > 0 && a * t == 0x400
    ensures Or(lo, (top % t) * a) == lo + (top % t) * a < 0x400
    ensures Or(lo, (top % t) * a) % a == lo && Or(lo, (top % t) * a) / a == top % t
  {
    hide Or, Pow2;
    OrMultiple(lo, top % t, a, n);
    BelowProduct(top % t, lo, t, a);
    Shared(lo, top % t, a);
  }

  lemma ChunkRoundTrip10(c0: nat, c1: nat, c2: nat, c3: nat)
    requires c0 < 0x400 && c1 < 0x400 && c2 < 0x400 && c3 < 0x400
    ensures UnpackChunk10(PackChunk10(c0, c1, c2, c3)) == [c0, c1, c2, c3]
  {
    hide Or, Pow2;
    Pow2Values();
    OrShifted(c0 / 0x100, c1, 2, 4, 0x40);
    OrShifted(c1 / 0x40, c2, 4, 0x10, 0x10);
    OrShifted(c2 / 0x10, c3, 6, 0x40, 4);
    OrParts(c0, 8, 0x100, 4);
    OrParts(c1, 6, 0x40, 0x10);
    OrParts(c2, 4, 0x10, 0x40);
    OrParts(c3, 2, 4, 0x100);
  }

  /** A ten-bit field is the or of its low and its high part. */
  lemma OrParts(c: nat, n: nat, a: nat, t: nat)
    requires a == Pow2(n) && a * t == 0x400 && c < 0x400
    ensures Or(c % a, (c / a) * a) == c && c / a < t
  {
    hide Or, Pow2;
    QuotientBelow(c, a, t);
    OrMultiple(c % a, c / a, a, n);
    assert c == (c / a) * a + c % a;
  }

  /** The low and high parts of the four fields are the parts of the bytes. */
  lemma TenBitParts(v: seq<byte>)
    requires |v| == 5
    ensures var c := UnpackChunk10(v);
            && (forall i :: 0 <= i < 4 ==> c[i] < 0x400)
            && c[0] % 0x100 == v[0] && c[0] / 0x100 == v[1] % 4 && c[1] % 0x40 == v[1] / 4 && c[1] / 0x40 == v[2] % 0x10
            && c[2] % 0x10 == v[2] / 0x10 && c[2] / 0x10 == v[3] % 0x40 && c[3] % 4 == v[3] / 0x40 && c[3] / 4 == v[4]
  {
    hide Or, Pow2;
    Pow2Values();
    OrHigh(v[0], v[1], 8, 0x100, 4);
    OrHigh(v[1] / 4, v[2], 6, 0x40, 0x10);
    OrHigh(v[2] / 0x10, v[3], 4, 0x10, 0x40);
    OrHigh(v[3] / 0x40, v[4], 2, 4, 0x100);
  }

  lemma ChunkCanonical10(v: seq<byte>)
    requires |v| == 5
    ensures var c := UnpackChunk10(v);
            && (forall i :: 0 <= i < 4 ==> c[i] < 0x400)
            && PackChunk10(c[0], c[1], c[2], c[3]) == v
  {
    hide Or, Pow2, UnpackChunk10;
    Pow2Values();
    var c := UnpackChunk10(v);
    TenBitParts(v);
    OrShifted(c[0] / 0x100, c[1], 2, 4, 0x40);
    OrShifted(c[1] / 0x40, c[2], 4, 0x10, 0x10);
    OrShifted(c[2] / 0x10, c[3], 6, 0x40, 4);
  }

  //////////////////////////////////////////////////////////////////////////////
  // The commitment: two 4-bit fields in a byte, or four 6-bit fields in three
  //////////////////////////////////////////////////////////////////////////////

  /** The shifts and ors of w1Encode for 4-bit and for 6-bit coefficients. */
  function PackChunk4(b0: nat, b1: nat): (v: seq<byte>)
    ensures |v| == 1
  {
    [SharedByte(b0, b1, 0x10)]
  }

  function PackChunk6(b0: nat, b1: nat, b2: nat, b3: nat): (v: seq<byte>)
    ensures |v| == 3
  {
    [SharedByte(b0, b1, 0x40), SharedByte(b1 / 4, b2, 0x10), SharedByte(b2 / 0x10, b3, 4)]
  }

  /** The fields of a byte, and of three; w1Encode has no decoder in the program. */
  function UnpackChunk4(v: seq<byte>): (w: seq<nat>)
    requires |v| == 1
    ensures |w| == 2
  {
    [v[0] % 0x10, v[0] / 0x10]
  }

  function UnpackChunk6(v: seq<byte>): (w: seq<nat>)
    requires |v| == 3
    ensures |w| == 4
  {
    var b0: nat, b1: nat, b2: nat := v[0], v[1], v[2];
    [b0 % 0x40, b0 / 0x40 + (b1 % 0x10) * 4, b1 / 0x10 + (b2 % 4) * 0x10, b2 / 4]
  }

  lemma ChunkRoundTrip4(b0: nat, b1: nat)
    requires b0 < 0x10 && b1 < 0x10
    ensures UnpackChunk4(PackChunk4(b0, b1)) == [b0, b1]
  {
    hide SharedByte;
    Pow2Values();
    SharedByteExact(b0, b1, 4, 0x10, 0x10);
  }

  lemma ChunkCanonical4(v: seq<byte>)
    requires |v| == 1
    ensures var w := UnpackChunk4(v); w[0] < 0x10 && w[1] < 0x10 && PackChunk4(w[0], w[1]) == v
  {
    hide SharedByte;
    Pow2Values();
    SharedByteExact(v[0] % 0x10, v[0] / 0x10, 4, 0x10, 0x10);
  }

  lemma ChunkRoundTrip6(b0: nat, b1: nat, b2: nat, b3: nat)
    requires b0 < 0x40 && b1 < 0x40 && b2 < 0x40 && b3 < 0x40
    ensures UnpackChunk6(PackChunk6(b0, b1, b2, b3)) == [b0, b1, b2, b3]
  {
    hide SharedByte;
    Pow2Values();
    SharedByteExact(b0, b1, 6, 0x40, 4);
    SharedByteExact(b1 / 4, b2, 4, 0x10, 0x10);
    SharedByteExact(b2 / 0x10, b3, 2, 4, 0x40);
  }

  /** The low and high parts of the four fields are the parts of the bytes. */
  lemma SixBitParts(v: seq<byte>)
    requires |v| == 3
    ensures var w := UnpackChunk6(v);
            && (forall i :: 0 <= i < 4 ==> w[i] < 0x40)
            && w[0] == v[0] % 0x40 && w[1] % 4 == v[0] / 0x40 && w[1] / 4 == v[1] % 0x10
            && w[2] % 0x10 == v[1] / 0x10 && w[2] / 0x10 == v[2] % 4 && w[3] == v[2] / 4
  {
    Shared(v[0] / 0x40, v[1] % 0x10, 4);
    Shared(v[1] / 0x10, v[2] % 4, 0x10);
  }

  lemma ChunkCanonical6(v: seq<byte>)
    requires |v| == 3
    ensures var w := UnpackChunk6(v);
            && (forall i :: 0 <= i < 4 ==> w[i] < 0x40)
            && PackChunk6(w[0], w[1], w[2], w[3]) == v
  {
    hide SharedByte, Pow2, UnpackChunk6;
    Pow2Values();
    SixBitParts(v);
    var w := UnpackChunk6(v);
    SharedByteExact(w[0], w[1], 6, 0x40, 4);
    SharedByteExact(w[1] / 4, w[2], 4, 0x10, 0x10);
    SharedByteExact(w[2] / 0x10, w[3], 2, 4, 0x40);
    SmallMod(w[3], 0x40);
  }

  //////////////////////////////////////////////////////////////////////////////
  // Whole polynomials
  //////////////////////////////////////////////////////////////////////////////

  /** The field widths: 4 or 6 bits in commitments, 10 in public keys, 18 or 20 in signatures. */
  predicate Width(bits: nat)
  {
    bits == 4 || bits == 6 || bits == 10 || bits == 18 || bits == 20
  }

  /** Fields and bytes in one chunk. */
  function Group(bits: nat): (g: nat)
  {
    if bits == 4 || bits == 20 then 2 else 4
  }

  function Octets(bits: nat): (o: nat)
  {
    if bits == 4 then 1 else if bits == 6 then 3 else if bits == 18 then 9 else 5
  }

  function Limit(bits: nat): (m: nat)
  {
    if bits == 4 then 0x10
    else if bits == 6 then 0x40
    else if bits == 10 then 0x400
    else if bits == 18 then 0x4_0000
    else 0x10_0000
  }

  predicate Fits(bits: nat, ws: seq<nat>)
  {
    forall i :: 0 <= i < |ws| ==> ws[i] < Limit(bits)
  }

  function PackChunk(bits: nat, ws: seq<nat>): (v: seq<byte>)
    requires Width(bits) && |ws| == Group(bits)
    ensures |v| == Octets(bits)
  {
    if bits == 4 then PackChunk4(ws[0], ws[1])
    else if bits == 6 then PackChunk6(ws[0], ws[1], ws[2], ws[3])
    else if bits == 10 then PackChunk10(ws[0], ws[1], ws[2], ws[3])
    else if bits == 18 then PackChunk18(ws[0], ws[1], ws[2], ws[3])
    else PackChunk20(ws[0], ws[1])
  }

  function UnpackChunk(bits: nat, v: seq<byte>): (ws: seq<nat>)
    requires Width(bits) && |v| == Octets(bits)
    ensures |ws| == Group(bits)
  {
    if bits == 4 then UnpackChunk4(v)
    else if bits == 6 then UnpackChunk6(v)
    else if bits == 10 then UnpackChunk10(v)
    else if bits == 18 then UnpackChunk18(v)
    else UnpackChunk20(v)
  }

  lemma ChunkRoundTrip(bits: nat, ws: seq<nat>)
    requires Width(bits) && |ws| == Group(bits) && Fits(bits, ws)
    ensures UnpackChunk(bits, PackChunk(bits, ws)) == ws
  {
    hide PackChunk4, PackChunk6, PackChunk10, PackChunk18, PackChunk20;
    hide UnpackChunk4, UnpackChunk6, UnpackChunk10, UnpackChunk18, UnpackChunk20;
    if bits == 4 {
      ChunkRoundTrip4(ws[0], ws[1]);
    } else if bits == 6 {
      ChunkRoundTrip6(ws[0], ws[1], ws[2], ws[3]);
    } else if bits == 10 {
      ChunkRoundTrip10(ws[0], ws[1], ws[2], ws[3]);
    } else if bits == 18 {
      ChunkRoundTrip18(ws[0], ws[1], ws[2], ws[3]);
    } else {
      ChunkRoundTrip20(ws[0], ws[1]);
    }
  }

  lemma ChunkCanonical(bits: nat, v: seq<byte>)
    requires Width(bits) && |v| == Octets(bits)
    ensures Fits(bits, UnpackChunk(bits, v)) && PackChunk(bits, UnpackChunk(bits, v)) == v
  {
    hide PackChunk4, PackChunk6, PackChunk10, PackChunk18, PackChunk20;
    hide UnpackChunk4, UnpackChunk6, UnpackChunk10, UnpackChunk18, UnpackChunk20;
    if bits == 4 {
      ChunkCanonical4(v);
    } else if bits == 6 {
      ChunkCanonical6(v);
    } else if bits == 10 {
      ChunkCanonical10(v);
    } else if bits == 18 {
      ChunkCanonical18(v);
    } else {
      ChunkCanonical20(v);
    }
  }

  /** The k chunks of ws, in order. */
  function PackFields(bits: nat, k: nat, ws: seq<nat>): (v: seq<byte>)
    requires Width(bits) && |ws| == Span(k, Group(bits))
    ensures |v| == Span(k, Octets(bits))
  {
    if k == 0 then []
    else
      BlockCount(k, Group(bits));
      BlockCount(k, Octets(bits));
      var m := Span(k - 1, Group(bits));
      PackFields(bits, k - 1, ws[..m]) + PackChunk(bits, ws[m..])
  }

  function UnpackFields(bits: nat, k: nat, v: seq<byte>): (ws: seq<nat>)
    requires Width(bits) && |v| == Span(k, Octets(bits))
    ensures |ws| == Span(k, Group(bits))
  {
    if k == 0 then []
    else
      BlockCount(k, Group(bits));
      BlockCount(k, Octets(bits));
      var m := Span(k - 1, Octets(bits));
      UnpackFields(bits, k - 1, v[..m]) + UnpackChunk(bits, v[m..])
  }

  lemma {:induction false} FieldsRoundTrip(bits: nat, k: nat, ws: seq<nat>)
    requires Width(bits) && |ws| == Span(k, Group(bits)) && Fits(bits, ws)
    ensures UnpackFields(bits, k, PackFields(bits, k, ws)) == ws
  {
    hide PackChunk, UnpackChunk, Group, Octets, Limit;
    if k > 0 {
      BlockCount(k, Group(bits));
      BlockCount(k, Octets(bits));
      var m := Span(k - 1, Group(bits));
      FieldsRoundTrip(bits, k - 1, ws[..m]);
      ChunkRoundTrip(bits, ws[m..]);
      var v := PackFields(bits, k, ws);
      var o := Span(k - 1, Octets(bits));
      assert v[..o] == PackFields(bits, k - 1, ws[..m]) && v[o..] == PackChunk(bits, ws[m..]);
    }
  }

  lemma {:induction false} FieldsCanonical(bits: nat, k: nat, v: seq<byte>)
    requires Width(bits) && |v| == Span(k, Octets(bits))
    ensures Fits(bits, UnpackFields(bits, k, v)) && PackFields(bits, k, UnpackFields(bits, k, v)) == v
  {
    hide PackChunk, UnpackChunk, Group, Octets, Limit;
    if k > 0 {
      BlockCount(k, Group(bits));
      BlockCount(k, Octets(bits));
      var o := Span(k - 1, Octets(bits));
      FieldsCanonical(bits, k - 1, v[..o]);
      ChunkCanonical(bits, v[o..]);
      var ws := UnpackFields(bits, k, v);
      var m := Span(k - 1, Group(bits));
      assert ws[..m] == UnpackFields(bits, k - 1, v[..o]) && ws[m..] == UnpackChunk(bits, v[o..]);
    }
  }

  function Chunks(bits: nat): (k: nat)
  {
    if bits == 4 || bits == 20 then 128 else 64
  }

  lemma ChunksCover(bits: nat)
    requires Width(bits)
    ensures Span(Chunks(bits), Group(bits)) == 256 && Span(Chunks(bits), Octets(bits)) == 32 * bits
  {
    hide Span;
    SpanProduct(Chunks(bits), Group(bits));
    SpanProduct(Chunks(bits), Octets(bits));
  }

  /** A polynomial's 256 fields in 32 * bits bytes. */
  function PackPoly(bits: nat, ws: seq<nat>): (v: seq<byte>)
    requires Width(bits) && |ws| == 256
    ensures |v| == 32 * bits
  {
    ChunksCover(bits);
    PackFields(bits, Chunks(bits), ws)
  }

  function UnpackPoly(bits: nat, v: seq<byte>): (ws: seq<nat>)
    requires Width(bits) && |v| == 32 * bits
    ensures |ws| == 256
  {
    ChunksCover(bits);
    UnpackFields(bits, Chunks(bits), v)
  }

  lemma PolyRoundTrip(bits: nat, ws: seq<nat>)
    requires Width(bits) && |ws| == 256 && Fits(bits, ws)
    ensures UnpackPoly(bits, PackPoly(bits, ws)) == ws
  {
    hide PackFields, UnpackFields, Chunks, Group, Octets, Span, Limit;
    ChunksCover(bits);
    FieldsRoundTrip(bits, Chunks(bits), ws);
  }

  lemma PolyCanonical(bits: nat, v: seq<byte>)
    requires Width(bits) && |v| == 32 * bits
    ensures Fits(bits, UnpackPoly(bits, v)) && PackPoly(bits, UnpackPoly(bits, v)) == v
  {
    hide PackFields, UnpackFields, Chunks, Group, Octets, Span, Limit;
    ChunksCover(bits);
    FieldsCanonical(bits, Chunks(bits), v);
  }

  //////////////////////////////////////////////////////////////////////////////
  // bitPack and bitUnpack
  //////////////////////////////////////////////////////////////////////////////

  predicate SignatureWidth(bits: nat)
  {
    bits == 18 || bits == 20
  }

  /** 2^gamma1, the offset of the packed coefficients. */
  function Offset(bits: nat): (b: FieldElement)
  {
    if bits == 18 then 0x2_0000 else 0x8_0000
  }

  /** The coefficients bitPack accepts: centered values in [-b + 1, b]. */
  predicate Packable(bits: nat, r: Polynomial)
  {
    forall i :: 0 <= i < |r| ==> -(Offset(bits) as int) < CenteredMod(r[i]) <= Offset(bits)
  }

  function ToFields(bits: nat, r: Polynomial): (ws: seq<nat>)
    requires SignatureWidth(bits) && Packable(bits, r)
    ensures |ws| == |r| && Fits(bits, ws)
    ensures forall i :: 0 <= i < |r| ==> ws[i] == Offset(bits) - CenteredMod(r[i])
  {
    seq(|r|, i requires 0 <= i < |r| => Offset(bits) - CenteredMod(r[i]))
  }

  function FromFields(bits: nat, ws: seq<nat>): (r: Polynomial)
    requires SignatureWidth(bits) && Fits(bits, ws)
    ensures |r| == |ws|
    ensures forall i :: 0 <= i < |r| ==> r[i] == SubToMontgomery(Offset(bits), ws[i])
  {
    seq(|ws|, i requires 0 <= i < |ws| => SubToMontgomery(Offset(bits), ws[i]))
  }

  /** The value of a coefficient is the offset minus its field. */
  lemma FieldValue(bits: nat, w: nat)
    requires SignatureWidth(bits) && w < Limit(bits)
    ensures CenteredMod(SubToMontgomery(Offset(bits), w)) == Offset(bits) - w
  {
    hide FromMontgomery, SubToMontgomery;
    FromSubToMontgomery(Offset(bits), w);
  }

  lemma CenteredInjective(a: FieldElement, b: FieldElement)
    requires CenteredMod(a) == CenteredMod(b)
    ensures a == b
  {
    hide FromMontgomery;
    FromInjective(a, b);
  }

  lemma FieldsOfPolynomial(bits: nat, r: Polynomial)
    requires SignatureWidth(bits) && Packable(bits, r)
    ensures FromFields(bits, ToFields(bits, r)) == r
  {
    hide SubToMontgomery, CenteredMod;
    var ws := ToFields(bits, r);
    forall i | 0 <= i < |r|
      ensures SubToMontgomery(Offset(bits), ws[i]) == r[i]
    {
      FieldValue(bits, ws[i]);
      CenteredInjective(SubToMontgomery(Offset(bits), ws[i]), r[i]);
    }
  }

  lemma PolynomialOfFields(bits: nat, ws: seq<nat>)
    requires SignatureWidth(bits) && Fits(bits, ws)
    ensures Packable(bits, FromFields(bits, ws)) && ToFields(bits, FromFields(bits, ws)) == ws
  {
    hide SubToMontgomery, CenteredMod;
    forall i | 0 <= i < |ws|
      ensures CenteredMod(SubToMontgomery(Offset(bits), ws[i])) == Offset(bits) - ws[i]
    {
      FieldValue(bits, ws[i]);
    }
  }

  function Pack(bits: nat, r: Polynomial): (v: seq<byte>)
    requires SignatureWidth(bits) && Packable(bits, r) && |r| == 256
    ensures |v| == 32 * bits
  {
    PackPoly(bits, ToFields(bits, r))
  }

  function Unpack(bits: nat, v: seq<byte>): (r: Polynomial)
    requires SignatureWidth(bits) && |v| == 32 * bits
    ensures |r| == 256
  {
    PolyCanonical(bits, v);
    FromFields(bits, UnpackPoly(bits, v))
  }

  /** Section 7.1 of FIPS 204: BitUnpack inverts BitPack on every packable polynomial. */
  lemma PackRoundTrip(bits: nat, r: Polynomial)
    requires SignatureWidth(bits) && Packable(bits, r) && |r| == 256
    ensures Unpack(bits, Pack(bits, r)) == r
  {
    hide PackPoly, UnpackPoly, ToFields, FromFields;
    PolyRoundTrip(bits, ToFields(bits, r));
    FieldsOfPolynomial(bits, r);
  }

  /** Every string of the right length is the packing of the packable polynomial it unpacks to. */
  lemma PackCanonical(bits: nat, v: seq<byte>)
    requires SignatureWidth(bits) && |v| == 32 * bits
    ensures Packable(bits, Unpack(bits, v)) && Pack(bits, Unpack(bits, v)) == v
  {
    hide PackPoly, UnpackPoly, ToFields, FromFields;
    PolyCanonical(bits, v);
    PolynomialOfFields(bits, UnpackPoly(bits, v));
  }
}
