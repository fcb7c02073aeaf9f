/**
 internal/mldsa/mldsa.go and field.go, encodings (section 7.2 of FIPS 204):
 the loops that pack and unpack polynomials, public keys, commitments and
 signatures, and the round trips between them.
 */
module Codec {
  import opened Poly
  import opened Bytes
  import opened Blocks
  import opened Packing
  import opened Hints
  import opened HintCodec
  import opened Parameters

  //////////////////////////////////////////////////////////////////////////////
  // One polynomial
  //////////////////////////////////////////////////////////////////////////////

  lemma PackStep(bits: nat, k: nat, ws: seq<nat>)
    requires Width(bits) && |ws| == 256 && k < Chunks(bits)
    ensures Span(k + 1, Group(bits)) <= 256 && Span(k + 1, Group(bits)) == Span(k, Group(bits)) + Group(bits)
    ensures var m := Span(k, Group(bits));
            PackFields(bits, k + 1, ws[..m + Group(bits)])
            == PackFields(bits, k, ws[..m]) + PackChunk(bits, ws[m..m + Group(bits)])
  {
    hide PackChunk, PackFields, Group, Octets, Chunks;
    ChunksCover(bits);
    SpanGrows(k + 1, Chunks(bits), Group(bits));
    BlockCount(k + 1, Group(bits));
    PackFieldsStep(bits, k, ws[..Span(k, Group(bits)) + Group(bits)]);
    var m := Span(k, Group(bits));
    assert ws[..m + Group(bits)][..m] == ws[..m];
    assert ws[..m + Group(bits)][m..] == ws[m..m + Group(bits)];
  }

  lemma PackFieldsStep(bits: nat, k: nat, ws: seq<nat>)
    requires Width(bits) && |ws| == Span(k, Group(bits)) + Group(bits)
    ensures Span(k + 1, Group(bits)) == |ws|
    ensures var m := Span(k, Group(bits));
            PackFields(bits, k + 1, ws) == PackFields(bits, k, ws[..m]) + PackChunk(bits, ws[m..])
  {
    hide PackChunk, Group, Octets;
    BlockCount(k + 1, Group(bits));
  }

  lemma UnpackStep(bits: nat, k: nat, v: seq<byte>)
    requires Width(bits) && |v| == 32 * bits && k < Chunks(bits)
    ensures Span(k + 1, Octets(bits)) <= 32 * bits && Span(k + 1, Octets(bits)) == Span(k, Octets(bits)) + Octets(bits)
    ensures var m := Span(k, Octets(bits));
            UnpackFields(bits, k + 1, v[..m + Octets(bits)])
            == UnpackFields(bits, k, v[..m]) + UnpackChunk(bits, v[m..m + Octets(bits)])
  {
    hide UnpackChunk, UnpackFields, Group, Octets, Chunks;
    ChunksCover(bits);
    SpanGrows(k + 1, Chunks(bits), Octets(bits));
    BlockCount(k + 1, Octets(bits));
    UnpackFieldsStep(bits, k, v[..Span(k, Octets(bits)) + Octets(bits)]);
    var m := Span(k, Octets(bits));
    assert v[..m + Octets(bits)][..m] == v[..m];
    assert v[..m + Octets(bits)][m..] == v[m..m + Octets(bits)];
  }

  lemma UnpackFieldsStep(bits: nat, k: nat, v: seq<byte>)
    requires Width(bits) && |v| == Span(k, Octets(bits)) + Octets(bits)
    ensures Span(k + 1, Octets(bits)) == |v|
    ensures var m := Span(k, Octets(bits));
            UnpackFields(bits, k + 1, v) == UnpackFields(bits, k, v[..m]) + UnpackChunk(bits, v[m..])
  {
    hide UnpackChunk, Group, Octets;
    BlockCount(k + 1, Octets(bits));
  }

  /** The chunk loop of pkEncode, w1Encode and bitPack: appends the bytes of 256 fields to buf. */
  method AppendFields(buf: seq<byte>, ws: seq<nat>, bits: nat) returns (out: seq<byte>)
    requires Width(bits) && |ws| == 256
    ensures out == buf + PackPoly(bits, ws)
  {
    hide PackChunk, PackFields, Group, Octets, Chunks, Span;
    out := buf;
    var i := 0;
    ghost var k := 0;
    SpanZero(Group(bits));
    NoFields(bits, ws);
    ChunksCover(bits);
    while i < 256
      invariant k <= Chunks(bits) && i == Span(k, Group(bits)) <= 256
      invariant out == buf + PackFields(bits, k, ws[..i])
      decreases 256 - i
    {
      if k == Chunks(bits) {
        assert false;
      }
      PackStep(bits, k, ws);
      GroupPositive(bits);
      out := out + PackChunk(bits, ws[i..i + Group(bits)]);
      i := i + Group(bits);
      k := k + 1;
    }
    if k < Chunks(bits) {
      SpanGrows(k + 1, Chunks(bits), Group(bits));
      BlockCount(k + 1, Group(bits));
      GroupPositive(bits);
      assert false;
    }
    assert ws[..256] == ws;
  }

  lemma NoFields(bits: nat, ws: seq<nat>)
    requires Width(bits)
    ensures Span(0, Group(bits)) == 0 && PackFields(bits, 0, ws[..0]) == []
  {
  }

  lemma GroupPositive(bits: nat)
    ensures Group(bits) > 0 && Octets(bits) > 0
  {
  }

  /** The chunk loop of pkDecode and bitUnpack: the 256 fields of v. */
  method ReadFields(v: seq<byte>, bits: nat) returns (ws: seq<nat>)
    requires Width(bits) && |v| == 32 * bits
    ensures ws == UnpackPoly(bits, v)
  {
    hide UnpackChunk, UnpackFields, Group, Octets, Chunks, Span;
    ws := [];
    var i := 0;
    ghost var k := 0;
    NoBytes(bits, v);
    ChunksCover(bits);
    while i < 32 * bits
      invariant k <= Chunks(bits) && i == Span(k, Octets(bits)) <= 32 * bits
      invariant ws == UnpackFields(bits, k, v[..i])
      decreases 32 * bits - i
    {
      if k == Chunks(bits) {
        assert false;
      }
      UnpackStep(bits, k, v);
      GroupPositive(bits);
      ws := ws + UnpackChunk(bits, v[i..i + Octets(bits)]);
      i := i + Octets(bits);
      k := k + 1;
    }
    if k < Chunks(bits) {
      SpanGrows(k + 1, Chunks(bits), Octets(bits));
      BlockCount(k + 1, Octets(bits));
      GroupPositive(bits);
      assert false;
    }
    assert v[..32 * bits] == v;
  }

  lemma NoBytes(bits: nat, v: seq<byte>)
    requires Width(bits)
    ensures Span(0, Octets(bits)) == 0 && UnpackFields(bits, 0, v[..0]) == []
  {
  }

  /** bitPack. */
  method BitPack(buf: seq<byte>, r: Polynomial, bits: nat) returns (out: seq<byte>)
    requires SignatureWidth(bits) && |r| == 256 && Packable(bits, r)
    ensures out == buf + Pack(bits, r)
  {
    hide PackPoly, ToFields;
    out := AppendFields(buf, ToFields(bits, r), bits);
  }

  /** bitUnpack. */
  method BitUnpack(v: seq<byte>, bits: nat) returns (r: Polynomial)
    requires SignatureWidth(bits) && |v| == 32 * bits
    ensures r == Unpack(bits, v)
  {
    hide UnpackPoly, FromFields;
    PolyCanonical(bits, v);
    var ws := ReadFields(v, bits);
    r := FromFields(bits, ws);
  }

  //////////////////////////////////////////////////////////////////////////////
  // Vectors
  //////////////////////////////////////////////////////////////////////////////

  predicate Vector(ts: seq<seq<nat>>)
  {
    forall i :: 0 <= i < |ts| ==> |ts[i]| == 256
  }

  predicate AllFit(bits: nat, ts: seq<seq<nat>>)
  {
    forall i :: 0 <= i < |ts| ==> Fits(bits, ts[i])
  }

  function PackAll(bits: nat, ts: seq<seq<nat>>): (v: seq<byte>)
    requires Width(bits) && Vector(ts)
    ensures |v| == Span(|ts|, 32 * bits)
  {
    if ts == [] then []
    else PackAll(bits, ts[..|ts| - 1]) + PackPoly(bits, ts[|ts| - 1])
  }

  function UnpackAll(bits: nat, n: nat, v: seq<byte>): (ts: seq<seq<nat>>)
    requires Width(bits) && |v| == Span(n, 32 * bits)
    ensures |ts| == n && Vector(ts)
  {
    if n == 0 then []
    else
      BlockCount(n, 32 * bits);
      var m := Span(n - 1, 32 * bits);
      UnpackAll(bits, n - 1, v[..m]) + [UnpackPoly(bits, v[m..])]
  }

  lemma PackAllUnfold(bits: nat, ts: seq<seq<nat>>)
    requires Width(bits) && Vector(ts) && |ts| > 0
    ensures var n := |ts| - 1;
            PackAll(bits, ts) == PackAll(bits, ts[..n]) + PackPoly(bits, ts[n])
  {
    hide PackPoly, Width, Span;
  }

  lemma UnpackAllUnfold(bits: nat, n: nat, v: seq<byte>)
    requires Width(bits) && n > 0 && |v| == Span(n, 32 * bits)
    ensures var m := Span(n - 1, 32 * bits);
            m + 32 * bits == |v| && UnpackAll(bits, n, v) == UnpackAll(bits, n - 1, v[..m]) + [UnpackPoly(bits, v[m..])]
  {
    hide UnpackPoly, Width;
    BlockCount(n, 32 * bits);
  }

  lemma {:induction false} AllRoundTrip(bits: nat, ts: seq<seq<nat>>)
    requires Width(bits) && Vector(ts) && AllFit(bits, ts)
    ensures UnpackAll(bits, |ts|, PackAll(bits, ts)) == ts
  {
    hide PackPoly, UnpackPoly, Fits, Width, PackAll, UnpackAll, Span;
    if |ts| == 0 {
      NoVectors(bits, PackAll(bits, ts));
      assert PackAll(bits, ts)[..0] == PackAll(bits, ts);
    } else {
      var n := |ts| - 1;
      AllRoundTrip(bits, ts[..n]);
      PolyRoundTrip(bits, ts[n]);
      var v := PackAll(bits, ts);
      var m := Span(n, 32 * bits);
      PackAllUnfold(bits, ts);
      UnpackAllUnfold(bits, |ts|, v);
      assert v[..m] == PackAll(bits, ts[..n]) && v[m..] == PackPoly(bits, ts[n]);
      assert ts == ts[..n] + [ts[n]];
    }
  }

  lemma {:induction false} AllCanonical(bits: nat, n: nat, v: seq<byte>)
    requires Width(bits) && |v| == Span(n, 32 * bits)
    ensures AllFit(bits, UnpackAll(bits, n, v)) && PackAll(bits, UnpackAll(bits, n, v)) == v
  {
    hide PackPoly, UnpackPoly, Fits, Width;
    if n > 0 {
      BlockCount(n, 32 * bits);
      var m := Span(n - 1, 32 * bits);
      AllCanonical(bits, n - 1, v[..m]);
      PolyCanonical(bits, v[m..]);
      var ts := UnpackAll(bits, n, v);
      assert ts[..n - 1] == UnpackAll(bits, n - 1, v[..m]);
      assert v == v[..m] + v[m..];
    }
  }

  /** Vector i is packed at its own place. */
  lemma {:induction false} PackAllAt(bits: nat, ts: seq<seq<nat>>, i: nat)
    requires Width(bits) && Vector(ts) && i < |ts|
    ensures Span(i, 32 * bits) + 32 * bits <= |PackAll(bits, ts)|
    ensures PackAll(bits, ts)[Span(i, 32 * bits)..Span(i, 32 * bits) + 32 * bits] == PackPoly(bits, ts[i])
    decreases |ts|
  {
    hide PackPoly, Width;
    var n := |ts| - 1;
    var front := PackAll(bits, ts[..n]);
    BlockCount(|ts|, 32 * bits);
    if i < n {
      PackAllAt(bits, ts[..n], i);
      assert PackAll(bits, ts)[..|front|] == front;
      assert PackAll(bits, ts)[Span(i, 32 * bits)..Span(i, 32 * bits) + 32 * bits]
             == front[Span(i, 32 * bits)..Span(i, 32 * bits) + 32 * bits];
    }
  }

  //////////////////////////////////////////////////////////////////////////////
  // Public keys
  //////////////////////////////////////////////////////////////////////////////

  datatype PkResult = PkOk(rho: seq<byte>, t1: seq<seq<nat>>) | PkErr

  function PkBytes(rho: seq<byte>, t1: seq<seq<nat>>): (pk: seq<byte>)
    requires Vector(t1)
    ensures |pk| == |rho| + Span(|t1|, 320)
  {
    rho + PackAll(10, t1)
  }

  function DecodePk(pk: seq<byte>, k: nat): (r: PkResult)
    ensures r.PkOk? ==> |r.rho| == 32 && |r.t1| == k && Vector(r.t1)
  {
    if |pk| != 32 + Span(k, 320) then PkErr
    else PkOk(pk[..32], UnpackAll(10, k, pk[32..]))
  }

  /** The seed comes first, then the vectors in order, 320 bytes each. */
  lemma PkLayout(rho: seq<byte>, t1: seq<seq<nat>>, i: nat)
    requires |rho| == 32 && Vector(t1) && i < |t1|
    ensures var pk := PkBytes(rho, t1);
            && pk[..32] == rho && 32 + 320 * i + 320 <= |pk|
            && pk[32 + 320 * i..32 + 320 * i + 320] == PackPoly(10, t1[i])
  {
    hide PackAll, PackPoly, Span;
    PackAllAt(10, t1, i);
    SpanProduct(i, 320);
    var pk := PkBytes(rho, t1);
    assert pk[32..] == PackAll(10, t1);
    assert pk[32..32 + (|pk| - 32)] == pk[32..];
    SliceOfSlice(pk, 32, |pk| - 32, 320 * i, 320);
  }

  /** pkDecode inverts pkEncode: on every seed of 32 bytes and every t1 of 10-bit coefficients. */
  lemma PkRoundTrip(rho: seq<byte>, t1: seq<seq<nat>>)
    requires |rho| == 32 && Vector(t1) && AllFit(10, t1)
    ensures DecodePk(PkBytes(rho, t1), |t1|) == PkOk(rho, t1)
  {
    hide PackAll, UnpackAll;
    AllRoundTrip(10, t1);
    var pk := PkBytes(rho, t1);
    assert pk[..32] == rho && pk[32..] == PackAll(10, t1);
  }

  /** pkDecode accepts exactly the strings of the right length, and pkEncode reproduces each of them. */
  lemma PkCanonical(pk: seq<byte>, k: nat)
    ensures DecodePk(pk, k).PkOk? <==> |pk| == 32 + k * 256 * 10 / 8
    ensures var r := DecodePk(pk, k);
            r.PkOk? ==> AllFit(10, r.t1) && PkBytes(r.rho, r.t1) == pk
  {
    hide PackAll, UnpackAll, Span;
    SpanProduct(k, 320);
    if |pk| == 32 + Span(k, 320) {
      AllCanonical(10, k, pk[32..]);
      assert pk == pk[..32] + pk[32..];
    }
  }

  /** pkEncode. */
  method PkEncode(buf: seq<byte>, rho: seq<byte>, t1: seq<seq<nat>>) returns (pk: seq<byte>)
    requires Vector(t1)
    ensures pk == buf + PkBytes(rho, t1)
  {
    hide PackPoly;
    pk := buf + rho;
    for r := 0 to |t1|
      invariant pk == buf + rho + PackAll(10, t1[..r])
    {
      pk := AppendFields(pk, t1[r], 10);
      assert t1[..r + 1][..r] == t1[..r];
    }
    assert t1[..|t1|] == t1;
  }

  lemma UnpackAllStep(bits: nat, n: nat, i: nat, v: seq<byte>)
    requires Width(bits) && |v| == Span(n, 32 * bits) && i < n
    ensures Span(i, 32 * bits) + 32 * bits == Span(i + 1, 32 * bits) <= |v|
    ensures var m := Span(i, 32 * bits);
            UnpackAll(bits, i + 1, v[..m + 32 * bits])
            == UnpackAll(bits, i, v[..m]) + [UnpackPoly(bits, v[m..m + 32 * bits])]
  {
    hide UnpackPoly, Width;
    BlockCount(i + 1, 32 * bits);
    SpanGrows(i + 1, n, 32 * bits);
    var m := Span(i, 32 * bits);
    var u := v[..m + 32 * bits];
    assert u[..m] == v[..m] && u[m..] == v[m..m + 32 * bits];
  }

  /** pkDecode. */
  method PkDecode(pk: seq<byte>, k: nat) returns (r: PkResult)
    ensures r == DecodePk(pk, k)
  {
    hide UnpackPoly, UnpackAll, Span;
    SpanProduct(k, 320);
    if |pk| != 32 + k * 256 * 10 / 8 {
      return PkErr;
    }
    var rho, rest := pk[..32], pk[32..];
    var t1: seq<seq<nat>>, at := [], 0;
    NoVectors(10, rest);
    for i := 0 to k
      invariant at == Span(i, 320) && at <= |rest| && |t1| == i
      invariant t1 == UnpackAll(10, i, rest[..at])
    {
      UnpackAllStep(10, k, i, rest);
      var w := ReadFields(rest[at..at + 320], 10);
      t1 := t1 + [w];
      at := at + 320;
    }
    assert rest[..at] == rest;
    return PkOk(rho, t1);
  }

  lemma NoVectors(bits: nat, v: seq<byte>)
    requires Width(bits)
    ensures Span(0, 32 * bits) == 0 && UnpackAll(bits, 0, v[..0]) == []
  {
  }

  //////////////////////////////////////////////////////////////////////////////
  // Signatures
  //////////////////////////////////////////////////////////////////////////////

  predicate AllPackable(bits: nat, z: seq<Polynomial>)
  {
    forall i :: 0 <= i < |z| ==> Packable(bits, z[i])
  }

  function VectorFields(bits: nat, z: seq<Polynomial>): (ts: seq<seq<nat>>)
    requires SignatureWidth(bits) && RingVector(z) && AllPackable(bits, z)
    ensures |ts| == |z| && Vector(ts) && AllFit(bits, ts)
    ensures forall i :: 0 <= i < |z| ==> ts[i] == ToFields(bits, z[i])
  {
    seq(|z|, i requires 0 <= i < |z| => ToFields(bits, z[i]))
  }

  function FieldsVector(bits: nat, ts: seq<seq<nat>>): (z: seq<Polynomial>)
    requires SignatureWidth(bits) && Vector(ts) && AllFit(bits, ts)
    ensures |z| == |ts| && RingVector(z)
    ensures forall i :: 0 <= i < |z| ==> z[i] == FromFields(bits, ts[i])
  {
    seq(|ts|, i requires 0 <= i < |ts| => FromFields(bits, ts[i]))
  }

  function PackVector(bits: nat, z: seq<Polynomial>): (v: seq<byte>)
    requires SignatureWidth(bits) && RingVector(z) && AllPackable(bits, z)
    ensures |v| == Span(|z|, 32 * bits)
  {
    PackAll(bits, VectorFields(bits, z))
  }

  function UnpackVector(bits: nat, n: nat, v: seq<byte>): (z: seq<Polynomial>)
    requires SignatureWidth(bits) && |v| == Span(n, 32 * bits)
    ensures |z| == n && RingVector(z)
  {
    AllCanonical(bits, n, v);
    FieldsVector(bits, UnpackAll(bits, n, v))
  }

  lemma VectorRoundTrip(bits: nat, z: seq<Polynomial>)
    requires SignatureWidth(bits) && RingVector(z) && AllPackable(bits, z)
    ensures UnpackVector(bits, |z|, PackVector(bits, z)) == z
  {
    hide PackAll, UnpackAll, Packable, ToFields, FromFields, Fits, VectorFields, FieldsVector;
    var ts := VectorFields(bits, z);
    AllRoundTrip(bits, ts);
    forall i | 0 <= i < |z|
      ensures FieldsVector(bits, ts)[i] == z[i]
    {
      FieldsOfPolynomial(bits, z[i]);
    }
  }

  lemma VectorCanonical(bits: nat, n: nat, v: seq<byte>)
    requires SignatureWidth(bits) && |v| == Span(n, 32 * bits)
    ensures AllPackable(bits, UnpackVector(bits, n, v)) && PackVector(bits, UnpackVector(bits, n, v)) == v
  {
    hide PackAll, UnpackAll, Packable, ToFields, FromFields, Fits, VectorFields, FieldsVector;
    AllCanonical(bits, n, v);
    var ts := UnpackAll(bits, n, v);
    var z := FieldsVector(bits, ts);
    forall i | 0 <= i < n
      ensures Packable(bits, z[i]) && ToFields(bits, z[i]) == ts[i]
    {
      PolynomialOfFields(bits, ts[i]);
    }
    assert VectorFields(bits, z) == ts;
  }

  datatype SigResult = SigOk(ch: seq<byte>, z: seq<Polynomial>, h: seq<Bits>) | SigErr(error: SigError)

  datatype SigError = SigLength | SigHints(hint: HintError)

  /** What sign hands to sigEncode: a challenge hash, a packable response, at most omega hints. */
  predicate Encodes(ch: seq<byte>, z: seq<Polynomial>, h: seq<Bits>, p: Params)
  {
    && Sound(p) && |ch| == p.lambda / 4 && |z| == p.l && |h| == p.k
    && RingVector(z) && AllPackable(p.gamma1 + 1, z) && Encodable(h, p.omega)
  }

  function SigBytes(ch: seq<byte>, z: seq<Polynomial>, h: seq<Bits>, p: Params): (sig: seq<byte>)
    requires Encodes(ch, z, h, p)
  {
    ch + PackVector(p.gamma1 + 1, z) + HintBytes(h, p.omega)
  }

  /** sigSize, the length of every encoded signature. */
  function SigSize(p: Params): (n: nat)
  {
    p.lambda / 4 + p.l * 256 * (p.gamma1 + 1) / 8 + p.omega + p.k
  }

  lemma SigSizeIs(p: Params)
    requires Sound(p)
    ensures SigSize(p) == p.lambda / 4 + Span(p.l, 32 * (p.gamma1 + 1)) + p.omega + p.k
  {
    hide Span;
    SpanProduct(p.l, 32 * (p.gamma1 + 1));
    if p.gamma1 == 17 {
      assert p.l * 256 * 18 / 8 == p.l * 576;
    } else {
      assert p.l * 256 * 20 / 8 == p.l * 640;
    }
  }

  function DecodeSig(sig: seq<byte>, p: Params): (r: SigResult)
    requires Sound(p)
    ensures r.SigOk? ==> |r.ch| == p.lambda / 4 && |r.z| == p.l && RingVector(r.z)
    ensures r.SigOk? ==> |r.h| == p.k && AllBinary(r.h)
  {
    if |sig| != SigSize(p) then SigErr(SigLength)
    else
      SigSizeIs(p);
      var a := p.lambda / 4;
      var b := a + Span(p.l, 32 * (p.gamma1 + 1));
      var hints := DecodeHints(sig[b..], p.omega, p.k);
      if hints.HintErr? then SigErr(SigHints(hints.error))
      else SigOk(sig[..a], UnpackVector(p.gamma1 + 1, p.l, sig[a..b]), hints.hints)
  }

  lemma SliceOfSlice(s: seq<byte>, a: nat, n: nat, i: nat, w: nat)
    requires a + n <= |s| && i + w <= n
    ensures s[a + i..a + i + w] == s[a..a + n][i..i + w]
  {
    var x, y := s[a + i..a + i + w], s[a..a + n][i..i + w];
    forall k | 0 <= k < w
      ensures x[k] == y[k]
    {
      assert x[k] == s[a + i + k] && y[k] == s[a..a + n][i + k];
    }
  }

  /** The hash comes first, then the packed response, then the hints. */
  lemma SigLayout(ch: seq<byte>, z: seq<Polynomial>, h: seq<Bits>, p: Params, i: nat)
    requires Encodes(ch, z, h, p) && i < p.l
    ensures var sig := SigBytes(ch, z, h, p);
            var a, w := p.lambda / 4, 32 * (p.gamma1 + 1);
            && sig[..a] == ch && Span(p.l, w) + a + p.omega + p.k == |sig| && a + Span(i, w) + w <= |sig|
            && sig[a + Span(i, w)..a + Span(i, w) + w] == Pack(p.gamma1 + 1, z[i])
            && sig[a + Span(p.l, w)..] == HintBytes(h, p.omega)
  {
    hide PackAll, PackPoly, Span, HintBytes, Encodable, ToFields;
    var bits := p.gamma1 + 1;
    var sig := SigBytes(ch, z, h, p);
    var a, w := p.lambda / 4, 32 * bits;
    PackAllAt(bits, VectorFields(bits, z), i);
    var body := PackVector(bits, z);
    assert sig[a..a + |body|] == body;
    SliceOfSlice(sig, a, |body|, Span(i, w), w);
  }

  /** sigDecode inverts sigEncode on every response and hint that sign can produce. */
  lemma SigRoundTrip(ch: seq<byte>, z: seq<Polynomial>, h: seq<Bits>, p: Params)
    requires Encodes(ch, z, h, p)
    ensures DecodeSig(SigBytes(ch, z, h, p), p) == SigOk(ch, z, h)
  {
    hide PackVector, UnpackVector, HintBytes, DecodeHints, Encodable, RingVector, AllPackable, SigSize, Span;
    SigSizeIs(p);
    VectorRoundTrip(p.gamma1 + 1, z);
    HintRoundTrip(h, p.omega);
    var sig := SigBytes(ch, z, h, p);
    var a := p.lambda / 4;
    var b := a + Span(p.l, 32 * (p.gamma1 + 1));
    assert sig[..a] == ch && sig[a..b] == PackVector(p.gamma1 + 1, z) && sig[b..] == HintBytes(h, p.omega);
  }

  /** sigEncode reproduces every signature that sigDecode accepts. */
  lemma SigCanonical(sig: seq<byte>, p: Params)
    requires Sound(p) && DecodeSig(sig, p).SigOk?
    ensures var r := DecodeSig(sig, p);
            Encodes(r.ch, r.z, r.h, p) && SigBytes(r.ch, r.z, r.h, p) == sig
  {
    hide PackVector, UnpackVector, HintBytes, DecodeHints, Encodable, RingVector, AllPackable, SigSize, Span;
    SigSizeIs(p);
    var a := p.lambda / 4;
    var b := a + Span(p.l, 32 * (p.gamma1 + 1));
    VectorCanonical(p.gamma1 + 1, p.l, sig[a..b]);
    HintCanonical(sig[b..], p.omega, p.k);
    assert sig == sig[..a] + sig[a..b] + sig[b..];
  }

  /** sigEncode. */
  method SigEncode(ch: seq<byte>, z: seq<Polynomial>, h: seq<Bits>, p: Params) returns (sig: seq<byte>)
    requires Encodes(ch, z, h, p)
    ensures sig == SigBytes(ch, z, h, p)
  {
    hide PackPoly, Packable, ToFields, HintBytes, Encodable;
    var bits := p.gamma1 + 1;
    ghost var ts := VectorFields(bits, z);
    sig := ch;
    for i := 0 to |z|
      invariant sig == ch + PackAll(bits, ts[..i])
    {
      sig := BitPack(sig, z[i], bits);
      assert ts[..i + 1][..i] == ts[..i];
    }
    assert ts[..|z|] == ts;
    sig := HintEncode(sig, h, p.omega);
  }

  lemma UnpackVectorStep(bits: nat, n: nat, i: nat, v: seq<byte>)
    requires SignatureWidth(bits) && |v| == Span(n, 32 * bits) && i < n
    ensures Span(i, 32 * bits) + 32 * bits == Span(i + 1, 32 * bits) <= |v|
    ensures var m := Span(i, 32 * bits);
            UnpackVector(bits, i + 1, v[..m + 32 * bits])
            == UnpackVector(bits, i, v[..m]) + [Unpack(bits, v[m..m + 32 * bits])]
  {
    hide UnpackAll, UnpackPoly, FromFields, Span, Fits;
    UnpackAllStep(bits, n, i, v);
    var m := Span(i, 32 * bits);
    AllCanonical(bits, i, v[..m]);
    AllCanonical(bits, i + 1, v[..m + 32 * bits]);
    PolyCanonical(bits, v[m..m + 32 * bits]);
  }

  /** The loop of sigDecode over the n polynomials of z. */
  method ReadVector(v: seq<byte>, n: nat, bits: nat) returns (z: seq<Polynomial>)
    requires SignatureWidth(bits) && |v| == Span(n, 32 * bits)
    ensures z == UnpackVector(bits, n, v)
  {
    hide UnpackVector, Unpack, Span;
    z := [];
    var at := 0;
    NoVectors(bits, v);
    assert UnpackVector(bits, 0, v[..0]) == [];
    for i := 0 to n
      invariant at == Span(i, 32 * bits) && at <= |v|
      invariant z == UnpackVector(bits, i, v[..at])
    {
      UnpackVectorStep(bits, n, i, v);
      var w := BitUnpack(v[at..at + 32 * bits], bits);
      z := z + [w];
      at := at + 32 * bits;
    }
    assert v[..at] == v;
  }

  /** sigDecode. */
  method SigDecode(sig: seq<byte>, p: Params) returns (r: SigResult)
    requires Sound(p)
    ensures r == DecodeSig(sig, p)
  {
    hide UnpackVector, DecodeHints, Span;
    if |sig| != SigSize(p) {
      return SigErr(SigLength);
    }
    SigSizeIs(p);
    var bits := p.gamma1 + 1;
    SpanProduct(p.l, 32 * bits);
    var a, b := p.lambda / 4, p.lambda / 4 + p.l * (32 * bits);
    var z := ReadVector(sig[a..b], p.l, bits);
    var hints := HintDecode(sig[b..], p.omega, p.k);
    if hints.HintErr? {
      return SigErr(SigHints(hints.error));
    }
    return SigOk(sig[..a], z, hints.hints);
  }

  //////////////////////////////////////////////////////////////////////////////
  // Commitments
  //////////////////////////////////////////////////////////////////////////////

  /** The width of a commitment coefficient: 4 bits for gamma2 = (q - 1) / 32, 6 for (q - 1) / 88. */
  function CommitmentBits(den: nat): (bits: nat)
  {
    if den == 32 then 4 else 6
  }

  /** w1Encode; the bytes it writes to the hash. */
  method W1Encode(buf: seq<byte>, w: Bits, den: nat) returns (out: seq<byte>)
    requires Gamma2(den) && |w| == 256
    ensures out == buf + PackPoly(CommitmentBits(den), w)
  {
    out := AppendFields(buf, w, CommitmentBits(den));
  }

  /** Different commitments are hashed as different strings. */
  lemma W1Injective(w: seq<Bits>, w': seq<Bits>, den: nat)
    requires Gamma2(den) && Vector(w) && Vector(w') && |w| == |w'|
    requires AllFit(CommitmentBits(den), w) && AllFit(CommitmentBits(den), w')
    requires PackAll(CommitmentBits(den), w) == PackAll(CommitmentBits(den), w')
    ensures w == w'
  {
    hide PackAll, UnpackAll;
    AllRoundTrip(CommitmentBits(den), w);
    AllRoundTrip(CommitmentBits(den), w');
  }
}
