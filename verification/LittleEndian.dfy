/**
 internal/mldsa: the packed forms as numbers (SimpleBitPack of section 7.1 of FIPS 204). The bytes
 of a packed polynomial, read as one little-endian integer, are the sum of its fields times the
 powers of 2^bits.
 */
module LittleEndian {
  import opened Field
  import opened Zetas
  import opened Poly
  import opened Bytes
  import opened Blocks
  import opened Packing

  /** The bytes as one little-endian integer. */
  function Little(v: seq<byte>): (x: nat)
  {
    if v == [] then 0 else v[0] + 256 * Little(v[1..])
  }

  /** The sum of the fields times the powers of 2^bits. */
  function Sum(bits: nat, ws: seq<nat>): (x: nat)
  {
    if ws == [] then 0 else ws[0] + Pow2(bits) * Sum(bits, ws[1..])
  }

  lemma {:induction false} LittleJoined(a: seq<byte>, b: seq<byte>)
    ensures Little(a + b) == Little(a) + Pow2(8 * |a|) * Little(b)
  {
    hide Pow2;
    Pow2Values();
    if a == [] {
      assert a + b == b;
    } else {
      assert (a + b)[1..] == a[1..] + b;
      LittleJoined(a[1..], b);
      Pow2Sum(8 * |a[1..]|, 8);
      Factor(256, Pow2(8 * |a[1..]|), Little(b));
    }
  }

  lemma Factor(x: nat, p: nat, y: nat)
    ensures x * (p * y) == (p * x) * y
  {
  }

  lemma Distributes(x: nat, y: nat, z: nat)
    ensures x * (y + z) == x * y + x * z
  {
  }

  lemma {:induction false} SumJoined(bits: nat, a: seq<nat>, b: seq<nat>)
    ensures Sum(bits, a + b) == Sum(bits, a) + Pow2(bits * |a|) * Sum(bits, b)
  {
    hide Pow2;
    Pow2Values();
    if a == [] {
      assert a + b == b && bits * |a| == 0;
    } else {
      assert (a + b)[1..] == a[1..] + b;
      SumJoined(bits, a[1..], b);
      var n := bits * |a[1..]|;
      assert bits * |a| == n + bits;
      Pow2Sum(n, bits);
      Factor(Pow2(bits), Pow2(n), Sum(bits, b));
      Distributes(Pow2(bits), Sum(bits, a[1..]), Pow2(n) * Sum(bits, b));
    }
  }

  //////////////////////////////////////////////////////////////////////////////
  // Chunks
  //////////////////////////////////////////////////////////////////////////////

  lemma Little3(b0: byte, b1: byte, b2: byte)
    ensures var x0: nat, x1: nat, x2: nat := b0, b1, b2; Little([b0, b1, b2]) == x0 + 0x100 * x1 + 0x1_0000 * x2
  {
    hide Little;
    var v := [b0, b1, b2];
    assert v[1..] == [b1, b2] && v[1..][1..] == [b2] && v[1..][1..][1..] == [];
    LittleStep(v);
    LittleStep(v[1..]);
    LittleStep(v[1..][1..]);
    NothingPacked(0);
  }

  lemma Little5(b0: byte, b1: byte, b2: byte, b3: byte, b4: byte)
    ensures var x0: nat, x1: nat, x2: nat, x3: nat, x4: nat := b0, b1, b2, b3, b4;
            Little([b0, b1, b2, b3, b4])
            == x0 + 0x100 * x1 + 0x1_0000 * x2 + 0x100_0000 * x3 + 0x1_0000_0000 * x4
  {
    hide Little;
    var v := [b0, b1, b2, b3, b4];
    assert v[1..] == [b1, b2, b3, b4] && v[1..][1..] == [b2, b3, b4];
    LittleStep(v);
    LittleStep(v[1..]);
    Little3(b2, b3, b4);
  }

  lemma LittleStep(v: seq<byte>)
    requires v != []
    ensures Little(v) == v[0] + 256 * Little(v[1..])
  {
  }

  lemma Sum2(bits: nat, w0: nat, w1: nat)
    ensures Sum(bits, [w0, w1]) == w0 + Pow2(bits) * w1
  {
    hide Pow2;
    var ws := [w0, w1];
    assert ws[1..] == [w1] && ws[1..][1..] == [];
    assert Sum(bits, ws[1..][1..]) == 0;
    assert Pow2(bits) * 0 == 0;
  }

  lemma Sum4(bits: nat, p: nat, w0: nat, w1: nat, w2: nat, w3: nat)
    requires p == Pow2(bits)
    ensures Sum(bits, [w0, w1, w2, w3]) == w0 + p * (w1 + p * (w2 + p * w3))
  {
    hide Pow2, Sum;
    var ws := [w0, w1, w2, w3];
    assert ws[1..] == [w1, w2, w3] && ws[1..][1..] == [w2, w3];
    SumStep(bits, ws);
    SumStep(bits, ws[1..]);
    Sum2(bits, w2, w3);
  }

  lemma SumStep(bits: nat, ws: seq<nat>)
    requires ws != []
    ensures Sum(bits, ws) == ws[0] + Pow2(bits) * Sum(bits, ws[1..])
  {
  }

  lemma Chunk4Value(b0: nat, b1: nat)
    requires b0 < 0x10 && b1 < 0x10
    ensures Little(PackChunk4(b0, b1)) == Sum(4, [b0, b1])
  {
    hide SharedByte, Pow2;
    Pow2Values();
    SharedByteExact(b0, b1, 4, 0x10, 0x10);
    Sum2(4, b0, b1);
    SmallMod(b1, 0x10);
    var v := PackChunk4(b0, b1);
    assert v[1..] == [];
  }

  lemma Chunk6Value(b0: nat, b1: nat, b2: nat, b3: nat)
    requires b0 < 0x40 && b1 < 0x40 && b2 < 0x40 && b3 < 0x40
    ensures Little(PackChunk6(b0, b1, b2, b3)) == Sum(6, [b0, b1, b2, b3])
  {
    hide SharedByte, Pow2, Little, Sum;
    Pow2Values();
    SharedByteExact(b0, b1, 6, 0x40, 4);
    SharedByteExact(b1 / 4, b2, 4, 0x10, 0x10);
    SharedByteExact(b2 / 0x10, b3, 2, 4, 0x40);
    SmallMod(b3, 0x40);
    Sum4(6, 0x40, b0, b1, b2, b3);
    var v := PackChunk6(b0, b1, b2, b3);
    Little3(v[0], v[1], v[2]);
    assert b1 == 4 * (b1 / 4) + b1 % 4 && b2 == 0x10 * (b2 / 0x10) + b2 % 0x10;
  }

  lemma Chunk10Value(c0: nat, c1: nat, c2: nat, c3: nat)
    requires c0 < 0x400 && c1 < 0x400 && c2 < 0x400 && c3 < 0x400
    ensures Little(PackChunk10(c0, c1, c2, c3)) == Sum(10, [c0, c1, c2, c3])
  {
    hide Or, Pow2, Little, Sum;
    Pow2Values();
    Pow2Sum(2, 8);
    OrShifted(c0 / 0x100, c1, 2, 4, 0x40);
    OrShifted(c1 / 0x40, c2, 4, 0x10, 0x10);
    OrShifted(c2 / 0x10, c3, 6, 0x40, 4);
    SmallMod(c3 / 4, 256);
    Sum4(10, 0x400, c0, c1, c2, c3);
    var v := PackChunk10(c0, c1, c2, c3);
    Little5(v[0], v[1], v[2], v[3], v[4]);
    assert c0 == 0x100 * (c0 / 0x100) + c0 % 0x100 && c1 == 0x40 * (c1 / 0x40) + c1 % 0x40;
    assert c2 == 0x10 * (c2 / 0x10) + c2 % 0x10 && c3 == 4 * (c3 / 4) + c3 % 4;
  }

  lemma Chunk20Value(w0: nat, w1: nat)
    requires w0 < 0x10_0000 && w1 < 0x10_0000
    ensures Little(PackChunk20(w0, w1)) == Sum(20, [w0, w1])
  {
    hide SharedByte, Pow2, Little, Sum;
    Pow2Values();
    Pow2Sixteen();
    Pow2Sum(4, 16);
    SharedByteExact(w0 / 0x1_0000, w1, 4, 0x10, 0x10);
    Cut(w0, 0x100, 0x100);
    DivDiv(w0, 0x100, 0x100);
    Cut(w1, 0x10, 0x100);
    DivDiv(w1, 0x10, 0x100);
    SmallMod(w1 / 0x1000, 256);
    Sum2(20, w0, w1);
    var v := PackChunk20(w0, w1);
    Little5(v[0], v[1], v[2], v[3], v[4]);
  }

  lemma Chunk18Value(w0: nat, w1: nat, w2: nat, w3: nat)
    requires w0 < 0x4_0000 && w1 < 0x4_0000 && w2 < 0x4_0000 && w3 < 0x4_0000
    ensures Little(PackChunk18(w0, w1, w2, w3)) == Sum(18, [w0, w1, w2, w3])
  {
    hide SharedByte, Pow2, Little, Sum;
    Pow2Values();
    Pow2Sixteen();
    Pow2Sum(2, 16);
    SharedByteExact(w0 / 0x1_0000, w1, 2, 4, 0x40);
    SharedByteExact(w1 / 0x4000, w2, 4, 0x10, 0x10);
    SharedByteExact(w2 / 0x1000, w3, 6, 0x40, 4);
    EighteenBits(w0, 0x100, w1, 0x40, w2, 0x10, w3, 4);
    SmallMod(w3 / 0x400, 256);
    Sum4(18, 0x4_0000, w0, w1, w2, w3);
    var v := PackChunk18(w0, w1, w2, w3);
    Little9(v);
  }

  /** The low part, the middle byte and the high part of each of four fields. */
  lemma EighteenBits(w0: nat, a0: nat, w1: nat, a1: nat, w2: nat, a2: nat, w3: nat, a3: nat)
    requires a0 > 0 && a1 > 0 && a2 > 0 && a3 > 0
    ensures w0 == w0 % a0 + (w0 / a0 % 256) * a0 + (w0 / (a0 * 256)) * (a0 * 256)
    ensures w1 == w1 % a1 + (w1 / a1 % 256) * a1 + (w1 / (a1 * 256)) * (a1 * 256)
    ensures w2 == w2 % a2 + (w2 / a2 % 256) * a2 + (w2 / (a2 * 256)) * (a2 * 256)
    ensures w3 == w3 % a3 + (w3 / a3 % 256) * a3 + (w3 / (a3 * 256)) * (a3 * 256)
  {
    Cut(w0, a0, 256);
    DivDiv(w0, a0, 256);
    Cut(w1, a1, 256);
    DivDiv(w1, a1, 256);
    Cut(w2, a2, 256);
    DivDiv(w2, a2, 256);
    Cut(w3, a3, 256);
    DivDiv(w3, a3, 256);
  }

  lemma Little9(v: seq<byte>)
    requires |v| == 9
    ensures var x0: nat, x1: nat, x2: nat, x3: nat, x4: nat := v[0], v[1], v[2], v[3], v[4];
            var x5: nat, x6: nat, x7: nat, x8: nat := v[5], v[6], v[7], v[8];
            Little(v) == x0 + 0x100 * x1 + 0x1_0000 * x2 + 0x100_0000 * x3
                         + 0x1_0000_0000 * (x4 + 0x100 * x5 + 0x1_0000 * x6 + 0x100_0000 * x7 + 0x1_0000_0000 * x8)
  {
    hide Little;
    var t := v[4..];
    assert t == [v[4], v[5], v[6], v[7], v[8]];
    Little5(v[4], v[5], v[6], v[7], v[8]);
    assert v[1..][1..] == v[2..] && v[2..][1..] == v[3..] && v[3..][1..] == t;
    LittleStep(v);
    LittleStep(v[1..]);
    LittleStep(v[2..]);
    LittleStep(v[3..]);
  }

  lemma ChunkValue(bits: nat, ws: seq<nat>)
    requires Width(bits) && |ws| == Group(bits) && Fits(bits, ws)
    ensures Little(PackChunk(bits, ws)) == Sum(bits, ws)
  {
    hide PackChunk4, PackChunk6, PackChunk10, PackChunk18, PackChunk20, Little, Sum;
    if bits == 4 {
      Chunk4Value(ws[0], ws[1]);
      assert ws == [ws[0], ws[1]];
    } else if bits == 20 {
      Chunk20Value(ws[0], ws[1]);
      assert ws == [ws[0], ws[1]];
    } else {
      assert ws == [ws[0], ws[1], ws[2], ws[3]];
      if bits == 6 {
        Chunk6Value(ws[0], ws[1], ws[2], ws[3]);
      } else if bits == 10 {
        Chunk10Value(ws[0], ws[1], ws[2], ws[3]);
      } else {
        Chunk18Value(ws[0], ws[1], ws[2], ws[3]);
      }
    }
  }

  //////////////////////////////////////////////////////////////////////////////
  // Polynomials
  //////////////////////////////////////////////////////////////////////////////

  lemma SameBits(bits: nat, k: nat)
    requires Width(bits)
    ensures 8 * Span(k, Octets(bits)) == bits * Span(k, Group(bits))
  {
    hide Span;
    SpanProduct(k, Octets(bits));
    SpanProduct(k, Group(bits));
    assert 8 * Octets(bits) == bits * Group(bits);
    assert 8 * (k * Octets(bits)) == k * (8 * Octets(bits));
    assert bits * (k * Group(bits)) == k * (bits * Group(bits));
  }

  lemma {:induction false} FieldsValue(bits: nat, k: nat, ws: seq<nat>)
    requires Width(bits) && |ws| == Span(k, Group(bits)) && Fits(bits, ws)
    ensures Little(PackFields(bits, k, ws)) == Sum(bits, ws)
  {
    hide PackChunk, Group, Octets, Limit, Little, Sum, Pow2;
    if k == 0 {
      NothingPacked(bits);
    } else {
      BlockCount(k, Group(bits));
      BlockCount(k, Octets(bits));
      var m := Span(k - 1, Group(bits));
      FieldsValue(bits, k - 1, ws[..m]);
      ChunkValue(bits, ws[m..]);
      SameBits(bits, k - 1);
      LittleJoined(PackFields(bits, k - 1, ws[..m]), PackChunk(bits, ws[m..]));
      SumJoined(bits, ws[..m], ws[m..]);
      assert ws == ws[..m] + ws[m..];
    }
  }

  lemma NothingPacked(bits: nat)
    ensures Little([]) == 0 && Sum(bits, []) == 0
  {
  }

  /** The packing of a polynomial, as a number. */
  lemma PackPolyValue(bits: nat, ws: seq<nat>)
    requires Width(bits) && |ws| == 256 && Fits(bits, ws)
    ensures Little(PackPoly(bits, ws)) == Sum(bits, ws)
  {
    hide PackFields, Chunks, Group, Octets, Span, Limit, Little, Sum;
    ChunksCover(bits);
    FieldsValue(bits, Chunks(bits), ws);
  }

  /** bitPack: every coefficient is stored as the offset minus its centered value. */
  lemma PackValue(bits: nat, r: Polynomial)
    requires SignatureWidth(bits) && Packable(bits, r) && |r| == 256
    ensures var ws := seq(256, i requires 0 <= i < 256 => Offset(bits) - CenteredMod(r[i]));
            (forall i :: 0 <= i < 256 ==> 0 <= ws[i]) && Little(Pack(bits, r)) == Sum(bits, ToFields(bits, r))
            && forall i :: 0 <= i < 256 ==> ToFields(bits, r)[i] == ws[i]
  {
    hide PackPoly, Little, Sum, CenteredMod;
    PackPolyValue(bits, ToFields(bits, r));
  }
}
