/**
 internal/mldsa/field.go, samplers (section 7.3 of FIPS 204). The output of an
 absorbed SHAKE instance is an arbitrary function from positions to bytes. The
 rejection loops read at most `limit` candidates and report Exhausted past it.
 */
module Sampling {
  import opened Field
  import opened FieldRing
  import opened Zetas
  import opened Poly
  import opened Bytes
  import opened Hints

  /** SHAKE-128 and SHAKE-256: the byte at each position of the output for a message. */
  datatype Shake = Shake(s128: (seq<byte>, nat) -> byte, s256: (seq<byte>, nat) -> byte)

  datatype Sampled = Sampled(f: Polynomial) | Exhausted

  //////////////////////////////////////////////////////////////////////////////
  // Rejection sampling
  //////////////////////////////////////////////////////////////////////////////

  /** The coefficients accepted among the first t candidates; pick(i) is [] or [c]. */
  function Accepted(pick: nat -> Polynomial, t: nat): (f: Polynomial)
  {
    if t == 0 then [] else Accepted(pick, t - 1) + pick(t - 1)
  }

  /** The first 256 accepted coefficients. */
  function FirstAccepted(pick: nat -> Polynomial, limit: nat): (r: Sampled)
    ensures r.Sampled? ==> |r.f| == 256
  {
    var f := Accepted(pick, limit);
    if |f| >= 256 then Sampled(f[..256]) else Exhausted
  }

  lemma {:induction false} AcceptedGrows(pick: nat -> Polynomial, t: nat, limit: nat)
    requires t <= limit
    ensures Accepted(pick, t) <= Accepted(pick, limit)
    decreases limit
  {
    if t < limit {
      AcceptedGrows(pick, t, limit - 1);
    }
  }

  /** A larger limit never changes a sample. */
  lemma LimitIrrelevant(pick: nat -> Polynomial, limit: nat, limit': nat)
    requires limit <= limit' && FirstAccepted(pick, limit).Sampled?
    ensures FirstAccepted(pick, limit') == FirstAccepted(pick, limit)
  {
    hide Accepted;
    AcceptedGrows(pick, limit, limit');
  }

  /** Every sampled coefficient was accepted at some candidate. */
  lemma {:induction false} AcceptedFrom(pick: nat -> Polynomial, t: nat, c: FieldElement)
    requires c in Accepted(pick, t)
    ensures exists i: nat :: i < t && c in pick(i)
  {
    if c in pick(t - 1) {
    } else {
      AcceptedFrom(pick, t - 1, c);
    }
  }

  /** fieldToMontgomery of the low 23 bits of three bytes, if reduced. */
  function FromThreeBytes(b0: byte, b1: byte, b2: byte): (f: Polynomial)
    ensures |f| <= 1
  {
    var x0: nat, x1: nat, x2: nat := b0, b1, b2;
    var v := Or(Or(x0, x1 * 0x100), x2 * 0x1_0000) % 0x80_0000;
    var c := ToMontgomery(v);
    if c.Reduced? then [c.element] else []
  }

  /** Section 7.3: the value is the 23-bit little-endian integer, kept iff it is below q. */
  lemma FromThreeBytesExact(b0: byte, b1: byte, b2: byte)
    ensures var x0: int, x1: int, x2: int := b0, b1, b2;
            var v := x0 + x1 * 0x100 + (x2 % 0x80) * 0x1_0000;
            var f := FromThreeBytes(b0, b1, b2);
            (|f| == 1 <==> v < 8380417) && (|f| == 1 ==> FromMontgomery(f[0]) == v)
  {
    hide Or, ToMontgomery, FromMontgomery;
    var x0: nat, x1: nat, x2: nat := b0, b1, b2;
    ThreeBytes(x0, x1, x2);
    var v := x0 + x1 * 0x100 + (x2 % 0x80) * 0x1_0000;
    if v < 8380417 {
      ToFromMontgomery(v);
    }
  }

  lemma ThreeBytes(x0: nat, x1: nat, x2: nat)
    requires x0 < 0x100 && x1 < 0x100 && x2 < 0x100
    ensures Or(Or(x0, x1 * 0x100), x2 * 0x1_0000) % 0x80_0000 == x0 + x1 * 0x100 + (x2 % 0x80) * 0x1_0000
  {
    hide Or, Pow2;
    Pow2Values();
    Pow2Sixteen();
    OrDisjoint(x0, x1 * 0x100, 8);
    OrDisjoint(x0 + x1 * 0x100, x2 * 0x1_0000, 16);
    assert x2 == 0x80 * (x2 / 0x80) + x2 % 0x80;
  }

  /** Candidate i of sampleNTT: bytes 3i, 3i + 1 and 3i + 2. */
  function NttCandidate(stream: nat -> byte, i: nat): (f: Polynomial)
    ensures |f| <= 1
  {
    FromThreeBytes(stream(3 * i), stream(3 * i + 1), stream(3 * i + 2))
  }

  function NttPick(stream: nat -> byte): (pick: nat -> Polynomial)
  {
    (i: nat) => NttCandidate(stream, i)
  }

  /** sampleNTT, reading the stream through a buffer of 168 bytes. */
  method SampleNtt(stream: nat -> byte, limit: nat) returns (r: Sampled)
    ensures r == FirstAccepted(NttPick(stream), limit)
  {
    hide FromThreeBytes, Accepted;
    ghost var pick := NttPick(stream);
    var a: Polynomial, buf: seq<byte>, off: nat, read: nat := [], seq(168, _ => 0), 168, 0;
    var t := 0;
    NoneAccepted(pick);
    while |a| < 256 && t < limit
      invariant a == Accepted(pick, t) && |a| <= 256 && t <= limit
      invariant |buf| == 168 && off <= 168 && off % 3 == 0 && read % 168 == 0
      invariant off < 168 ==> read >= 168 && 3 * t == read - 168 + off
      invariant off == 168 ==> 3 * t == read
      invariant off < 168 ==> forall i :: 0 <= i < 168 ==> buf[i] == stream(read - 168 + i)
      decreases limit - t
    {
      if off >= 168 {
        buf := seq(168, i requires 0 <= i < 168 => stream(read + i));
        read := read + 168;
        off := 0;
      }
      AcceptStep(pick, t);
      var c := FromThreeBytes(buf[off], buf[off + 1], buf[off + 2]);
      assert c == NttCandidate(stream, t);
      off := off + 3;
      a := a + c;
      t := t + 1;
    }
    AcceptedGrows(pick, t, limit);
    if |a| == 256 {
      return Sampled(a);
    }
    return Exhausted;
  }

  lemma NoneAccepted(pick: nat -> Polynomial)
    ensures Accepted(pick, 0) == []
  {
  }

  lemma AcceptStep(pick: nat -> Polynomial, t: nat)
    ensures Accepted(pick, t + 1) == Accepted(pick, t) + pick(t)
  {
  }

  /** The value of three bytes: 23 bits, little-endian. */
  function Triple(stream: nat -> byte, i: nat): (v: nat)
  {
    var x0: nat, x1: nat, x2: nat := stream(3 * i), stream(3 * i + 1), stream(3 * i + 2);
    x0 + x1 * 0x100 + (x2 % 0x80) * 0x1_0000
  }

  /** The values below q among the first t triples of the stream, in order. */
  function ValuesBelow(stream: nat -> byte, t: nat): (vs: seq<nat>)
  {
    if t == 0 then []
    else ValuesBelow(stream, t - 1) + (if Triple(stream, t - 1) < 8380417 then [Triple(stream, t - 1)] else [])
  }

  /** The polynomial has these values. */
  predicate HasValues(f: Polynomial, vs: seq<nat>)
  {
    |f| == |vs| && forall j :: 0 <= j < |f| ==> FromMontgomery(f[j]) == vs[j]
  }

  lemma {:induction false} AcceptedValues(stream: nat -> byte, t: nat)
    ensures HasValues(Accepted(NttPick(stream), t), ValuesBelow(stream, t))
  {
    hide FromThreeBytes, FromMontgomery, Triple;
    if t > 0 {
      AcceptedValues(stream, t - 1);
      TripleIs(stream, t - 1);
    }
  }

  lemma TripleIs(stream: nat -> byte, i: nat)
    ensures var f := NttCandidate(stream, i);
            (|f| == 1 <==> Triple(stream, i) < 8380417) && (|f| == 1 ==> FromMontgomery(f[0]) == Triple(stream, i))
  {
    hide FromThreeBytes, FromMontgomery;
    FromThreeBytesExact(stream(3 * i), stream(3 * i + 1), stream(3 * i + 2));
  }

  /** RejNTTPoly of section 7.3: the first 256 values below q of the triples of the stream. */
  lemma SampleNttValues(stream: nat -> byte, limit: nat)
    ensures var r := FirstAccepted(NttPick(stream), limit);
            && (r.Sampled? <==> |ValuesBelow(stream, limit)| >= 256)
            && (r.Sampled? ==> HasValues(r.f, ValuesBelow(stream, limit)[..256]))
  {
    hide Accepted, ValuesBelow, FromMontgomery;
    AcceptedValues(stream, limit);
  }

  //////////////////////////////////////////////////////////////////////////////
  // Short secrets
  //////////////////////////////////////////////////////////////////////////////

  /** coeffFromHalfByte, with the Barrett reduction modulo 5. */
  function CoeffFromHalfByte(b: nat, eta: nat): (f: Polynomial)
    requires b < 16 && (eta == 2 || eta == 4)
    ensures |f| <= 1
  {
    if eta == 2 then
      if b > 14 then []
      else
        var quotient := (b * 0x3334) / 0x1_0000;
        [SubToMontgomery(2, b - quotient * 5)]
    else
      if b > 8 then [] else [SubToMontgomery(4, b)]
  }

  /** CoeffFromHalfByte of section 7.1: 2 - (b mod 5) for b < 15, or 4 - b for b < 9. */
  lemma CoeffFromHalfByteExact(b: nat, eta: nat)
    requires b < 16 && (eta == 2 || eta == 4)
    ensures var f := CoeffFromHalfByte(b, eta);
            && (|f| == 1 <==> if eta == 2 then b < 15 else b < 9)
            && (|f| == 1 ==> CenteredMod(f[0]) == (if eta == 2 then 2 - b % 5 else 4 - b))
            && (|f| == 1 ==> InfinityNorm(f[0]) <= eta)
  {
    hide FromMontgomery, SubToMontgomery;
    if eta == 2 {
      FromSubToMontgomery(2, b % 5);
      assert b < 15 ==> b - (b * 0x3334) / 0x1_0000 * 5 == b % 5;
    } else {
      FromSubToMontgomery(4, b);
    }
  }

  function HalfByte(stream: nat -> byte, i: nat): (b: nat)
    ensures b < 16
  {
    if i % 2 == 0 then stream(i / 2) % 16 else stream(i / 2) / 16
  }

  function BoundedCandidate(stream: nat -> byte, eta: nat, i: nat): (f: Polynomial)
    requires eta == 2 || eta == 4
    ensures |f| <= 1
  {
    CoeffFromHalfByte(HalfByte(stream, i), eta)
  }

  function BoundedPick(stream: nat -> byte, eta: nat): (pick: nat -> Polynomial)
    requires eta == 2 || eta == 4
  {
    (i: nat) => BoundedCandidate(stream, eta, i)
  }

  /** sampleBoundedPoly, reading at most limit bytes of the stream through a buffer of 136 bytes. */
  method SampleBoundedPoly(stream: nat -> byte, eta: nat, limit: nat) returns (r: Sampled)
    requires eta == 2 || eta == 4
    ensures r == FirstAccepted(BoundedPick(stream, eta), 2 * limit)
  {
    hide CoeffFromHalfByte, Accepted;
    ghost var pick := BoundedPick(stream, eta);
    var a: Polynomial, buf: seq<byte>, off: nat, read: nat := [], seq(136, _ => 0), 136, 0;
    NoneAccepted(pick);
    var t := 0;
    while t < limit
      invariant t <= limit && |a| < 256 && a == Accepted(pick, 2 * t)
      invariant |buf| == 136 && off <= 136 && (off == 136 ==> t == read)
      invariant off < 136 ==> read >= 136 && t == read - 136 + off
      invariant off < 136 ==> forall i :: 0 <= i < 136 ==> buf[i] == stream(read - 136 + i)
    {
      if off >= 136 {
        buf := seq(136, i requires 0 <= i < 136 => stream(read + i));
        read := read + 136;
        off := 0;
      }
      var b: nat := buf[off];
      assert b == stream(t);
      off := off + 1;
      AcceptStep(pick, 2 * t);
      a := a + CoeffFromHalfByte(b % 16, eta);
      if |a| >= 256 {
        AcceptedGrows(pick, 2 * t + 1, 2 * limit);
        return Sampled(a);
      }
      AcceptStep(pick, 2 * t + 1);
      a := a + CoeffFromHalfByte(b / 16, eta);
      if |a| >= 256 {
        AcceptedGrows(pick, 2 * t + 2, 2 * limit);
        return Sampled(a);
      }
      t := t + 1;
    }
    return Exhausted;
  }

  /** Every sampled secret has coefficients in [-eta, eta]. */
  lemma BoundedPolyNorm(stream: nat -> byte, eta: nat, limit: nat)
    requires eta == 2 || eta == 4
    ensures var r := FirstAccepted(BoundedPick(stream, eta), limit);
            r.Sampled? ==> NormBelow(r.f, eta + 1)
  {
    hide CoeffFromHalfByte, Accepted, InfinityNorm;
    var pick := BoundedPick(stream, eta);
    var all := Accepted(pick, limit);
    forall k | 0 <= k < |all|
      ensures InfinityNorm(all[k]) < eta + 1
    {
      AcceptedFrom(pick, limit, all[k]);
      var i: nat :| i < limit && all[k] in pick(i);
      CoeffFromHalfByteExact(HalfByte(stream, i), eta);
    }
  }

  /** Half byte i of the stream, the low half of each byte first. */
  function HalfAt(stream: nat -> byte, i: nat): (b: nat)
  {
    var x: nat := stream(i / 2);
    if i % 2 == 0 then x % 16 else x / 16
  }

  /** CoeffFromHalfByte of section 7.1: at most one coefficient. */
  function HalfValue(b: nat, eta: nat): (vs: seq<int>)
  {
    if eta == 2 then (if b < 15 then [2 - b % 5] else []) else if b < 9 then [4 - b] else []
  }

  /** The coefficients of the first t half bytes, in order. */
  function HalfValues(stream: nat -> byte, eta: nat, t: nat): (vs: seq<int>)
  {
    if t == 0 then [] else HalfValues(stream, eta, t - 1) + HalfValue(HalfAt(stream, t - 1), eta)
  }

  predicate HasCentered(f: Polynomial, vs: seq<int>)
  {
    |f| == |vs| && forall j :: 0 <= j < |f| ==> CenteredMod(f[j]) == vs[j]
  }

  lemma CenteredJoined(f: Polynomial, vs: seq<int>, g: Polynomial, ws: seq<int>)
    requires HasCentered(f, vs) && HasCentered(g, ws)
    ensures HasCentered(f + g, vs + ws)
  {
    hide CenteredMod;
  }

  lemma HalfCandidate(stream: nat -> byte, eta: nat, i: nat)
    requires eta == 2 || eta == 4
    ensures HasCentered(BoundedPick(stream, eta)(i), HalfValue(HalfAt(stream, i), eta))
  {
    hide CoeffFromHalfByte, CenteredMod;
    CoeffFromHalfByteExact(HalfByte(stream, i), eta);
  }

  lemma {:induction false} AcceptedHalves(stream: nat -> byte, eta: nat, t: nat)
    requires eta == 2 || eta == 4
    ensures HasCentered(Accepted(BoundedPick(stream, eta), t), HalfValues(stream, eta, t))
  {
    hide BoundedPick, HalfValue, HalfAt, CenteredMod;
    if t > 0 {
      AcceptedHalves(stream, eta, t - 1);
      HalfCandidate(stream, eta, t - 1);
      CenteredJoined(Accepted(BoundedPick(stream, eta), t - 1), HalfValues(stream, eta, t - 1),
                     BoundedPick(stream, eta)(t - 1), HalfValue(HalfAt(stream, t - 1), eta));
    }
  }

  /** RejBoundedPoly of section 7.3: the first 256 coefficients of the half bytes of the stream. */
  lemma SampleBoundedValues(stream: nat -> byte, eta: nat, limit: nat)
    requires eta == 2 || eta == 4
    ensures var r := FirstAccepted(BoundedPick(stream, eta), limit);
            && (r.Sampled? <==> |HalfValues(stream, eta, limit)| >= 256)
            && (r.Sampled? ==> HasCentered(r.f, HalfValues(stream, eta, limit)[..256]))
  {
    hide Accepted, HalfValues, CenteredMod;
    AcceptedHalves(stream, eta, limit);
  }
}
