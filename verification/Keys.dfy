/**
 internal/mldsa/mldsa.go: newPrivateKey and newPublicKey (sections 5.1 and 6.1 of
 FIPS 204), and the equation between the parts of a key on which signatures rest.
 */
module Keys {
  import opened Field
  import opened FieldRing
  import opened Poly
  import opened NttSpec
  import opened NttCode
  import opened Rounding
  import opened Hints
  import opened Bytes
  import opened Packing
  import opened Codec
  import opened Parameters
  import opened Sampling
  import opened Vectors

  datatype PublicKey = PublicKey(p: Params, raw: seq<byte>, a: seq<seq<Polynomial>>, t1: seq<Polynomial>, tr: seq<byte>)

  datatype PrivateKey = PrivateKey(
    seed: seq<byte>, pub: PublicKey,
    s1: seq<Polynomial>, s2: seq<Polynomial>, t0: seq<Polynomial>, k: seq<byte>)

  //////////////////////////////////////////////////////////////////////////////
  // Hashing
  //////////////////////////////////////////////////////////////////////////////

  function Stream128(sh: Shake, m: seq<byte>): (s: nat -> byte)
  {
    (i: nat) => sh.s128(m, i)
  }

  function Stream256(sh: Shake, m: seq<byte>): (s: nat -> byte)
  {
    (i: nat) => sh.s256(m, i)
  }

  /** n bytes of output, from position at on. */
  function Output(s: nat -> byte, at: nat, n: nat): (v: seq<byte>)
    ensures |v| == n && forall i :: 0 <= i < n ==> v[i] == s(at + i)
  {
    seq(n, i requires 0 <= i < n => s(at + i))
  }

  //////////////////////////////////////////////////////////////////////////////
  // The matrix A
  //////////////////////////////////////////////////////////////////////////////

  /** Entry (r, s) of A, from the seed rho. */
  function MatrixEntry(sh: Shake, rho: seq<byte>, r: nat, s: nat, limit: nat): (e: Sampled)
    ensures e.Sampled? ==> RingElement(e.f)
  {
    FirstAccepted(NttPick(Stream128(sh, rho + [ToByte(s), ToByte(r)])), limit)
  }

  /** The entry is sampled from the hash of the seed, the column and the row, in that order. */
  lemma MatrixEntryReads(sh: Shake, rho: seq<byte>, r: byte, s: byte, limit: nat)
    ensures var stream := (i: nat) => sh.s128(rho + [s, r], i);
            var e := MatrixEntry(sh, rho, r, s, limit);
            && (e.Sampled? <==> |ValuesBelow(stream, limit)| >= 256)
            && (e.Sampled? ==> HasValues(e.f, ValuesBelow(stream, limit)[..256]))
  {
    hide FirstAccepted, ValuesBelow, FromMontgomery;
    var stream := (i: nat) => sh.s128(rho + [s, r], i);
    var other := Stream128(sh, rho + [ToByte(s), ToByte(r)]);
    assert [ToByte(s), ToByte(r)] == [s, r];
    SampleNttValues(other, limit);
    SameValues(stream, other, limit);
  }

  lemma {:induction false} SameValues(a: nat -> byte, b: nat -> byte, t: nat)
    requires forall i: nat :: a(i) == b(i)
    ensures ValuesBelow(a, t) == ValuesBelow(b, t)
  {
    if t > 0 {
      SameValues(a, b, t - 1);
    }
  }

  /** Different entries are sampled from different strings. */
  lemma MatrixInputs(rho: seq<byte>, r: nat, s: nat, r': nat, s': nat)
    requires r < 256 && s < 256 && r' < 256 && s' < 256
    requires rho + [ToByte(s), ToByte(r)] == rho + [ToByte(s'), ToByte(r')]
    ensures r == r' && s == s'
  {
    var n := |rho|;
    assert (rho + [ToByte(s), ToByte(r)])[n..] == (rho + [ToByte(s'), ToByte(r')])[n..];
    assert (rho + [ToByte(s), ToByte(r)])[n] == ToByte(s) && (rho + [ToByte(s'), ToByte(r')])[n] == ToByte(s');
    assert (rho + [ToByte(s), ToByte(r)])[n + 1] == ToByte(r) && (rho + [ToByte(s'), ToByte(r')])[n + 1] == ToByte(r');
  }

  predicate IsRow(sh: Shake, rho: seq<byte>, r: nat, limit: nat, row: seq<Polynomial>)
  {
    forall s :: 0 <= s < |row| ==> MatrixEntry(sh, rho, r, s, limit) == Sampled(row[s])
  }

  predicate IsMatrix(sh: Shake, rho: seq<byte>, limit: nat, a: seq<seq<Polynomial>>)
  {
    forall r :: 0 <= r < |a| ==> IsRow(sh, rho, r, limit, a[r])
  }

  lemma MatrixEntryLimit(sh: Shake, rho: seq<byte>, r: nat, s: nat, limit: nat, limit': nat)
    requires MatrixEntry(sh, rho, r, s, limit).Sampled? && MatrixEntry(sh, rho, r, s, limit').Sampled?
    ensures MatrixEntry(sh, rho, r, s, limit) == MatrixEntry(sh, rho, r, s, limit')
  {
    hide FirstAccepted;
    var pick := NttPick(Stream128(sh, rho + [ToByte(s), ToByte(r)]));
    if limit <= limit' {
      LimitIrrelevant(pick, limit, limit');
    } else {
      LimitIrrelevant(pick, limit', limit);
    }
  }

  /** A depends on the seed only. */
  lemma MatrixUnique(sh: Shake, rho: seq<byte>, k: nat, l: nat, limit: nat, limit': nat,
                     a: seq<seq<Polynomial>>, a': seq<seq<Polynomial>>)
    requires RingMatrix(a, k, l) && RingMatrix(a', k, l)
    requires IsMatrix(sh, rho, limit, a) && IsMatrix(sh, rho, limit', a')
    ensures a == a'
  {
    hide MatrixEntry, RingVector;
    forall r | 0 <= r < k
      ensures a[r] == a'[r]
    {
      assert IsRow(sh, rho, r, limit, a[r]) && IsRow(sh, rho, r, limit', a'[r]);
      forall s | 0 <= s < l
        ensures a[r][s] == a'[r][s]
      {
        MatrixEntryLimit(sh, rho, r, s, limit, limit');
      }
    }
  }

  /** Every entry of A is drawn within the limit. */
  ghost predicate MatrixDrawn(sh: Shake, rho: seq<byte>, k: nat, l: nat, limit: nat)
  {
    forall r, s :: 0 <= r < k && 0 <= s < l ==> MatrixEntry(sh, rho, r, s, limit).Sampled?
  }

  datatype MatrixResult = Matrix(a: seq<seq<Polynomial>>) | NoMatrix

  /** computeMatrixA. */
  method ComputeMatrix(sh: Shake, rho: seq<byte>, k: nat, l: nat, limit: nat) returns (m: MatrixResult)
    ensures m.Matrix? ==> RingMatrix(m.a, k, l) && IsMatrix(sh, rho, limit, m.a)
    ensures m.NoMatrix? ==> !MatrixDrawn(sh, rho, k, l, limit)
  {
    hide FirstAccepted, NttPick;
    var a: seq<seq<Polynomial>> := [];
    for r := 0 to k
      invariant RingMatrix(a, r, l) && IsMatrix(sh, rho, limit, a)
    {
      var row: seq<Polynomial> := [];
      for s := 0 to l
        invariant |row| == s && RingVector(row) && IsRow(sh, rho, r, limit, row)
      {
        var e := SampleNtt(Stream128(sh, rho + [ToByte(s), ToByte(r)]), limit);
        if e.Exhausted? {
          assert MatrixEntry(sh, rho, r, s, limit).Exhausted?;
          return NoMatrix;
        }
        row := row + [e.f];
      }
      a := a + [row];
    }
    return Matrix(a);
  }

  //////////////////////////////////////////////////////////////////////////////
  // The public part of t
  //////////////////////////////////////////////////////////////////////////////

  /** The Montgomery form of t1 * 2^13, which computeT1Hat transforms. */
  function Shifted(t1: seq<nat>): (f: Polynomial)
    requires Fits(10, t1)
    ensures |f| == |t1|
    ensures forall j :: 0 <= j < |t1| ==> ToMontgomery(t1[j] * 8192) == Reduced(f[j])
  {
    seq(|t1|, j requires 0 <= j < |t1| => ToMontgomery(t1[j] * 8192).element)
  }

  predicate IsT1Hat(t1: seq<seq<nat>>, hat: seq<Polynomial>)
    requires Vector(t1) && AllFit(10, t1)
  {
    |hat| == |t1| && forall i :: 0 <= i < |t1| ==> hat[i] == Transform(Shifted(t1[i]))
  }

  /** computeT1Hat. */
  method ComputeT1Hat(t1: seq<seq<nat>>) returns (hat: seq<Polynomial>)
    requires Vector(t1) && AllFit(10, t1)
    ensures |hat| == |t1| && IsT1Hat(t1, hat) && RingVector(hat)
  {
    hide Transform, Fits, ToMontgomery;
    hat := [];
    for i := 0 to |t1|
      invariant |hat| == i && RingVector(hat) && forall j :: 0 <= j < i ==> hat[j] == Transform(Shifted(t1[j]))
    {
      var h := Ntt256(Shifted(t1[i]));
      hat := hat + [h];
    }
  }

  /** The hash of the encoded key. */
  function KeyHash(sh: Shake, raw: seq<byte>): (tr: seq<byte>)
  {
    Output(Stream256(sh, raw), 0, 64)
  }

  lemma KeyHashReads(sh: Shake, raw: seq<byte>)
    ensures |KeyHash(sh, raw)| == 64 && forall n :: 0 <= n < 64 ==> KeyHash(sh, raw)[n] == sh.s256(raw, n)
  {
  }

  //////////////////////////////////////////////////////////////////////////////
  // newPublicKey
  //////////////////////////////////////////////////////////////////////////////

  /** What newPublicKey makes of an encoded key. */
  ghost predicate IsPublicKey(sh: Shake, limit: nat, pub: PublicKey)
  {
    var d := DecodePk(pub.raw, pub.p.k);
    && d.PkOk? && AllFit(10, d.t1)
    && RingMatrix(pub.a, pub.p.k, pub.p.l) && IsMatrix(sh, d.rho, limit, pub.a)
    && IsT1Hat(d.t1, pub.t1) && RingVector(pub.t1)
    && pub.tr == KeyHash(sh, pub.raw)
  }

  /** An encoded key determines the public key, whatever the sampling limits. */
  lemma PublicKeyUnique(sh: Shake, limit: nat, limit': nat, pub: PublicKey, pub': PublicKey)
    requires IsPublicKey(sh, limit, pub) && IsPublicKey(sh, limit', pub')
    requires pub.raw == pub'.raw && pub.p == pub'.p
    ensures pub == pub'
  {
    hide DecodePk, IsMatrix, RingMatrix, RingVector, Transform, AllFit, KeyHash;
    var d := DecodePk(pub.raw, pub.p.k);
    MatrixUnique(sh, d.rho, pub.p.k, pub.p.l, limit, limit', pub.a, pub'.a);
    assert pub.t1 == pub'.t1;
  }

  datatype PubResult = Pub(pub: PublicKey) | PubLength | PubExhausted

  /** newPublicKey. */
  method NewPublicKey(sh: Shake, pk: seq<byte>, p: Params, limit: nat) returns (r: PubResult)
    requires Sound(p)
    ensures r.PubLength? <==> |pk| != 32 + p.k * 256 * 10 / 8
    ensures r.PubExhausted? ==> !MatrixDrawn(sh, pk[..32], p.k, p.l, limit)
    ensures r.Pub? ==> r.pub.raw == pk && r.pub.p == p && IsPublicKey(sh, limit, r.pub)
  {
    hide MatrixDrawn, IsMatrix, IsT1Hat, RingMatrix, RingVector, AllFit, KeyHash, Sound;
    PkCanonical(pk, p.k);
    var d := PkDecode(pk, p.k);
    if d.PkErr? {
      return PubLength;
    }
    var m := ComputeMatrix(sh, d.rho, p.k, p.l, limit);
    if m.NoMatrix? {
      return PubExhausted;
    }
    var hat := ComputeT1Hat(d.t1);
    return Pub(PublicKey(p, pk, m.a, hat, KeyHash(sh, pk)));
  }

  //////////////////////////////////////////////////////////////////////////////
  // newPrivateKey
  //////////////////////////////////////////////////////////////////////////////

  /** Secret number r, from the seed rhos. */
  function SecretPoly(sh: Shake, rhos: seq<byte>, r: nat, eta: nat, limit: nat): (e: Sampled)
    requires eta == 2 || eta == 4
    ensures e.Sampled? ==> RingElement(e.f)
  {
    FirstAccepted(BoundedPick(Stream256(sh, rhos + [ToByte(r), 0]), eta), 2 * limit)
  }

  /** Secret number r is sampled from the hash of the seed and the two bytes of r. */
  lemma SecretPolyReads(sh: Shake, rhos: seq<byte>, r: byte, eta: nat, limit: nat)
    requires eta == 2 || eta == 4
    ensures var stream := (i: nat) => sh.s256(rhos + [r, 0], i);
            var e := SecretPoly(sh, rhos, r, eta, limit);
            && (e.Sampled? <==> |HalfValues(stream, eta, 2 * limit)| >= 256)
            && (e.Sampled? ==> HasCentered(e.f, HalfValues(stream, eta, 2 * limit)[..256]))
  {
    hide FirstAccepted, HalfValues, CenteredMod;
    var stream := (i: nat) => sh.s256(rhos + [r, 0], i);
    var other := Stream256(sh, rhos + [ToByte(r), 0]);
    assert [ToByte(r), 0] == [r, 0];
    SampleBoundedValues(other, eta, 2 * limit);
    SameHalves(stream, other, eta, 2 * limit);
  }

  lemma {:induction false} SameHalves(a: nat -> byte, b: nat -> byte, eta: nat, t: nat)
    requires forall i: nat :: a(i) == b(i)
    ensures HalfValues(a, eta, t) == HalfValues(b, eta, t)
  {
    if t > 0 {
      SameHalves(a, b, eta, t - 1);
    }
  }

  predicate IsSecret(sh: Shake, rhos: seq<byte>, r: nat, eta: nat, limit: nat, v: Polynomial)
    requires eta == 2 || eta == 4
  {
    var e := SecretPoly(sh, rhos, r, eta, limit);
    e.Sampled? && v == Transform(e.f)
  }

  /** The transforms of secrets number first, first + 1, ... */
  predicate AreSecrets(sh: Shake, rhos: seq<byte>, first: nat, eta: nat, limit: nat, v: seq<Polynomial>)
    requires eta == 2 || eta == 4
  {
    forall i :: 0 <= i < |v| ==> IsSecret(sh, rhos, first + i, eta, limit, v[i])
  }

  ghost predicate SecretsDrawn(sh: Shake, rhos: seq<byte>, first: nat, count: nat, eta: nat, limit: nat)
    requires eta == 2 || eta == 4
  {
    forall r :: first <= r < first + count ==> SecretPoly(sh, rhos, r, eta, limit).Sampled?
  }

  /** Secrets have coefficients in [-eta, eta]. */
  lemma SecretNorm(sh: Shake, rhos: seq<byte>, first: nat, eta: nat, limit: nat, v: seq<Polynomial>, i: nat)
    requires (eta == 2 || eta == 4) && AreSecrets(sh, rhos, first, eta, limit, v) && i < |v|
    ensures RingElement(v[i]) && NormBelow(InverseTransform(v[i]), eta + 1)
  {
    hide Transform, InverseTransform, FirstAccepted, NormBelow;
    var e := SecretPoly(sh, rhos, first + i, eta, limit);
    assert IsSecret(sh, rhos, first + i, eta, limit, v[i]);
    InverseTransformOfTransform(e.f);
    BoundedPolyNorm(Stream256(sh, rhos + [ToByte(first + i), 0]), eta, 2 * limit);
  }

  /** The high and low parts of Power2Round. */
  function HighPart(t: Polynomial): (hi: seq<nat>)
    ensures |hi| == |t| && forall j :: 0 <= j < |t| ==> hi[j] == Power2Round(t[j]).hi
  {
    seq(|t|, j requires 0 <= j < |t| => Power2Round(t[j]).hi)
  }

  function LowPart(t: Polynomial): (lo: Polynomial)
    ensures |lo| == |t| && forall j :: 0 <= j < |t| ==> lo[j] == Power2Round(t[j]).lo
  {
    seq(|t|, j requires 0 <= j < |t| => Power2Round(t[j]).lo)
  }

  lemma HighFits(t: Polynomial)
    ensures Fits(10, HighPart(t))
  {
    hide Power2Round, HighPart;
    forall j | 0 <= j < |t|
      ensures Power2Round(t[j]).hi < 0x400
    {
      Power2RoundExact(t[j]);
    }
  }

  /** t1 * 2^13 + t0 is t again, in Montgomery form. */
  lemma PartsSum(t: Polynomial)
    ensures Fits(10, HighPart(t)) && PolyAdd(Shifted(HighPart(t)), LowPart(t)) == t
  {
    hide Power2Round, HighPart, LowPart, Add, PolyAdd, Shifted, ToMontgomery, Fits;
    HighFits(t);
    var hi := HighPart(t);
    var f := Shifted(hi);
    forall j | 0 <= j < |t|
      ensures Add(f[j], LowPart(t)[j]) == t[j]
    {
      CoefficientSum(t[j], f[j]);
    }
  }

  lemma CoefficientSum(x: FieldElement, f: FieldElement)
    requires ToMontgomery(Power2Round(x).hi * 8192) == Reduced(f)
    ensures Add(f, Power2Round(x).lo) == x
  {
    hide Power2Round, Add, ToMontgomery, FromMontgomery;
    Power2RoundExact(x);
    var r := Power2Round(x);
    ToFromMontgomery(r.hi * 8192);
    FromShift(f, r.lo);
    FromInjective(Add(f, r.lo), x);
  }

  /** Row i of t = NTT^-1(A o s1 + s2). */
  function TRow(priv: PrivateKey, i: nat): (t: Polynomial)
    requires WellFormed(priv) && i < priv.pub.p.k
    ensures RingElement(t)
  {
    InverseTransform(MulAdd(priv.s2[i], priv.pub.a[i], priv.s1))
  }

  predicate WellFormedPub(pub: PublicKey)
  {
    && Sound(pub.p)
    && RingMatrix(pub.a, pub.p.k, pub.p.l)
    && |pub.t1| == pub.p.k && RingVector(pub.t1)
  }

  predicate WellFormed(priv: PrivateKey)
  {
    && WellFormedPub(priv.pub)
    && |priv.s1| == priv.pub.p.l && RingVector(priv.s1)
    && |priv.s2| == |priv.t0| == priv.pub.p.k && RingVector(priv.s2) && RingVector(priv.t0)
  }

  /** The parts of t in the key: the rounded part, transformed, and the encoded one. */
  ghost predicate RoundedKey(priv: PrivateKey, t1: seq<seq<nat>>)
    requires WellFormed(priv)
  {
    hide Transform, HighPart, LowPart, AllFit, Sound;
    && |t1| == priv.pub.p.k && Vector(t1) && AllFit(10, t1)
    && (forall i :: 0 <= i < |t1| ==> t1[i] == HighPart(TRow(priv, i)))
    && (forall i :: 0 <= i < |t1| ==> priv.t0[i] == Transform(LowPart(TRow(priv, i))))
    && IsT1Hat(t1, priv.pub.t1)
  }

  /** What newPrivateKey makes of a seed. */
  ghost predicate IsPrivateKey(sh: Shake, limit: nat, priv: PrivateKey, t1: seq<seq<nat>>)
  {
    && WellFormed(priv) && RoundedKey(priv, t1)
    && var p := priv.pub.p;
       var xi := Stream256(sh, priv.seed + [ToByte(p.k), ToByte(p.l)]);
       var rho, rhos := Output(xi, 0, 32), Output(xi, 32, 64);
       && IsMatrix(sh, rho, limit, priv.pub.a)
       && AreSecrets(sh, rhos, 0, p.eta, limit, priv.s1)
       && AreSecrets(sh, rhos, p.l, p.eta, limit, priv.s2)
       && priv.k == Output(xi, 96, 32)
       && priv.pub.raw == PkBytes(rho, t1)
       && priv.pub.tr == KeyHash(sh, priv.pub.raw)
  }

  /** The equation that makes signatures verify: t1 * 2^13 + t0 = A s1 + s2, and s2 is short. */
  ghost predicate KeyEquation(priv: PrivateKey)
  {
    && WellFormed(priv)
    && (forall i :: 0 <= i < priv.pub.p.k ==>
          Balanced(priv.pub.a[i], priv.s1, priv.pub.t1[i], priv.t0[i], priv.s2[i]))
    && (forall i :: 0 <= i < priv.pub.p.k ==> NormBelow(InverseTransform(priv.s2[i]), priv.pub.p.eta + 1))
  }

  lemma EquationRow(priv: PrivateKey, t1: seq<seq<nat>>, i: nat)
    requires WellFormed(priv) && RoundedKey(priv, t1) && i < priv.pub.p.k
    ensures Balanced(priv.pub.a[i], priv.s1, priv.pub.t1[i], priv.t0[i], priv.s2[i])
  {
    hide Transform, InverseTransform, HighPart, LowPart, Shifted, MulAdd, PolyAdd, AllFit, Vector, Sound;
    var t := TRow(priv, i);
    PartsSum(t);
    TransformAdd(Shifted(HighPart(t)), LowPart(t));
    TransformOfInverseTransform(MulAdd(priv.s2[i], priv.pub.a[i], priv.s1));
  }

  /** Every key that newPrivateKey makes satisfies the equation. */
  lemma PrivateKeyEquation(sh: Shake, limit: nat, priv: PrivateKey, t1: seq<seq<nat>>)
    requires IsPrivateKey(sh, limit, priv, t1)
    ensures KeyEquation(priv)
  {
    hide Balanced, InverseTransform, Output, IsMatrix, PkBytes, KeyHash, AreSecrets, RoundedKey, NormBelow;
    var p := priv.pub.p;
    var rhos := Output(Stream256(sh, priv.seed + [ToByte(p.k), ToByte(p.l)]), 32, 64);
    forall i | 0 <= i < p.k
      ensures Balanced(priv.pub.a[i], priv.s1, priv.pub.t1[i], priv.t0[i], priv.s2[i])
      ensures NormBelow(InverseTransform(priv.s2[i]), p.eta + 1)
    {
      EquationRow(priv, t1, i);
      SecretNorm(sh, rhos, p.l, p.eta, limit, priv.s2, i);
    }
  }

  /** The public part of a private key is the key that newPublicKey decodes from its bytes. */
  lemma MatchingPublicKey(sh: Shake, limit: nat, priv: PrivateKey, t1: seq<seq<nat>>)
    requires IsPrivateKey(sh, limit, priv, t1)
    ensures IsPublicKey(sh, limit, priv.pub)
  {
    hide MulAdd, Transform, InverseTransform, HighPart, LowPart, AreSecrets, IsMatrix, PkBytes, DecodePk, KeyHash;
    hide AllFit, Vector, IsT1Hat, RingMatrix, RingVector, Sound;
    var p := priv.pub.p;
    var rho := Output(Stream256(sh, priv.seed + [ToByte(p.k), ToByte(p.l)]), 0, 32);
    PkRoundTrip(rho, t1);
  }

  /** Different secrets are sampled from different strings. */
  lemma SecretInputs(rhos: seq<byte>, r: nat, r': nat)
    requires r < 256 && r' < 256 && rhos + [ToByte(r), 0] == rhos + [ToByte(r'), 0]
    ensures r == r'
  {
    assert (rhos + [ToByte(r), 0])[|rhos|] == ToByte(r) && (rhos + [ToByte(r'), 0])[|rhos|] == ToByte(r');
  }

  /**
   The first 32 bytes of the public key, the secret seed rhos and the signer's key are 128 consecutive bytes
   of the hash of the seed and the dimensions; A comes from the first, and s1 and then s2 from the second.
   */
  ghost predicate Expands(sh: Shake, limit: nat, priv: PrivateKey, rhos: seq<byte>)
    requires priv.pub.p.eta == 2 || priv.pub.p.eta == 4
  {
    hide IsMatrix, AreSecrets, Output;
    var p := priv.pub.p;
    && |priv.pub.raw| >= 32 && |rhos| == 64 && |priv.k| == 32
    && priv.pub.raw[..32] + rhos + priv.k
       == Output(Stream256(sh, priv.seed + [ToByte(p.k), ToByte(p.l)]), 0, 128)
    && IsMatrix(sh, priv.pub.raw[..32], limit, priv.pub.a)
    && AreSecrets(sh, rhos, 0, p.eta, limit, priv.s1) && AreSecrets(sh, rhos, p.l, p.eta, limit, priv.s2)
  }

  lemma OutputParts(s: nat -> byte)
    ensures Output(s, 0, 32) + Output(s, 32, 64) + Output(s, 96, 32) == Output(s, 0, 128)
  {
    var a, b, c := Output(s, 0, 32), Output(s, 32, 64), Output(s, 96, 32);
    forall i | 0 <= i < 128
      ensures (a + b + c)[i] == Output(s, 0, 128)[i]
    {
    }
  }

  lemma SeedParts(sh: Shake, limit: nat, priv: PrivateKey, t1: seq<seq<nat>>)
    requires IsPrivateKey(sh, limit, priv, t1)
    ensures (priv.pub.p.eta == 2 || priv.pub.p.eta == 4) && exists rhos :: Expands(sh, limit, priv, rhos)
  {
    hide RoundedKey, IsMatrix, AreSecrets, KeyHash, PackAll, RingVector, RingMatrix;
    var p := priv.pub.p;
    var xi := Stream256(sh, priv.seed + [ToByte(p.k), ToByte(p.l)]);
    OutputParts(xi);
    assert priv.pub.raw[..32] == Output(xi, 0, 32);
    assert Expands(sh, limit, priv, Output(xi, 32, 64));
  }

  /** The sampling loops of newPrivateKey for s1 and s2. */
  method SampleSecrets(sh: Shake, rhos: seq<byte>, first: nat, count: nat, eta: nat, limit: nat)
    returns (ok: bool, v: seq<Polynomial>)
    requires eta == 2 || eta == 4
    ensures ok ==> |v| == count && RingVector(v) && AreSecrets(sh, rhos, first, eta, limit, v)
    ensures !ok ==> !SecretsDrawn(sh, rhos, first, count, eta, limit)
  {
    hide Transform, FirstAccepted, BoundedPick;
    v := [];
    for i := 0 to count
      invariant |v| == i && RingVector(v) && AreSecrets(sh, rhos, first, eta, limit, v)
    {
      var e := SampleBoundedPoly(Stream256(sh, rhos + [ToByte(first + i), 0]), eta, limit);
      if e.Exhausted? {
        assert SecretPoly(sh, rhos, first + i, eta, limit).Exhausted?;
        return false, [];
      }
      var hat := Ntt256(e.f);
      assert IsSecret(sh, rhos, first + i, eta, limit, hat);
      v := v + [hat];
    }
    return true, v;
  }

  /** The inner Power2Round loop of newPrivateKey. */
  method RoundRow(t: Polynomial) returns (hi: seq<nat>, lo: Polynomial)
    ensures hi == HighPart(t) && lo == LowPart(t)
  {
    hide *;
    hi, lo := [], [];
    for j := 0 to |t|
      invariant |hi| == |lo| == j
      invariant forall i :: 0 <= i < j ==> hi[i] == Power2Round(t[i]).hi && lo[i] == Power2Round(t[i]).lo
    {
      var r := Power2Round(t[j]);
      hi, lo := hi + [r.hi], lo + [r.lo];
    }
  }

  predicate RowsRounded(t: seq<Polynomial>, t1: seq<seq<nat>>, t0: seq<Polynomial>)
  {
    && |t1| == |t0| == |t| && Vector(t1) && AllFit(10, t1) && RingVector(t0) && RingVector(t)
    && (forall i :: 0 <= i < |t| ==> t1[i] == HighPart(t[i]))
    && (forall i :: 0 <= i < |t| ==> t0[i] == Transform(LowPart(t[i])))
  }

  /** t = NTT^-1(A o s1 + s2) and its parts, the middle of newPrivateKey. */
  method RoundT(a: seq<seq<Polynomial>>, s1: seq<Polynomial>, s2: seq<Polynomial>)
    returns (ghost t: seq<Polynomial>, t1: seq<seq<nat>>, t0: seq<Polynomial>)
    requires RingMatrix(a, |s2|, |s1|) && RingVector(s1) && RingVector(s2)
    ensures |t| == |s2| && RowsRounded(t, t1, t0)
    ensures forall i :: 0 <= i < |t| ==> t[i] == InverseTransform(MulAdd(s2[i], a[i], s1))
  {
    hide Transform, InverseTransform, MulAdd, HighPart, LowPart, Fits;
    t, t1, t0 := [], [], [];
    for i := 0 to |s2|
      invariant |t| == i && RowsRounded(t, t1, t0)
      invariant forall j :: 0 <= j < i ==> t[j] == InverseTransform(MulAdd(s2[j], a[j], s1))
    {
      var hat := RowProduct(s2[i], a[i], s1);
      var row := InverseNtt256(hat);
      var hi, lo := RoundRow(row);
      HighFits(row);
      var lowHat := Ntt256(lo);
      t, t1, t0 := t + [row], t1 + [hi], t0 + [lowHat];
    }
  }

  /** Everything newPrivateKey samples is drawn within the limit. */
  ghost predicate KeyDrawn(sh: Shake, seed: seq<byte>, p: Params, limit: nat)
    requires p.eta == 2 || p.eta == 4
  {
    var xi := Stream256(sh, seed + [ToByte(p.k), ToByte(p.l)]);
    var rho, rhos := Output(xi, 0, 32), Output(xi, 32, 64);
    && MatrixDrawn(sh, rho, p.k, p.l, limit)
    && SecretsDrawn(sh, rhos, 0, p.l, p.eta, limit)
    && SecretsDrawn(sh, rhos, p.l, p.k, p.eta, limit)
  }

  datatype PrivResult = Priv(priv: PrivateKey) | PrivExhausted

  /** newPrivateKey. The ghost result is the encoded part of t. */
  method NewPrivateKey(sh: Shake, seed: seq<byte>, p: Params, limit: nat)
    returns (r: PrivResult, ghost t1: seq<seq<nat>>)
    requires Sound(p)
    ensures r.PrivExhausted? ==> !KeyDrawn(sh, seed, p, limit)
    ensures r.Priv? ==> r.priv.seed == seed && r.priv.pub.p == p
    ensures r.Priv? ==> IsPrivateKey(sh, limit, r.priv, t1) && KeyEquation(r.priv)
  {
    hide Transform, InverseTransform, MulAdd, HighPart, LowPart, AllFit, Output, IsMatrix, AreSecrets, KeyHash;
    hide IsT1Hat, PkBytes, RingVector, Vector, KeyEquation, MatrixDrawn, SecretsDrawn;
    t1 := [];
    var xi := Stream256(sh, seed + [ToByte(p.k), ToByte(p.l)]);
    var rho, rhos, key := Output(xi, 0, 32), Output(xi, 32, 64), Output(xi, 96, 32);
    var m := ComputeMatrix(sh, rho, p.k, p.l, limit);
    var ok1, s1 := SampleSecrets(sh, rhos, 0, p.l, p.eta, limit);
    var ok2, s2 := SampleSecrets(sh, rhos, p.l, p.k, p.eta, limit);
    if m.NoMatrix? || !ok1 || !ok2 {
      return PrivExhausted, [];
    }
    var t, hi, t0 := RoundT(m.a, s1, s2);
    t1 := hi;
    var raw := PkEncode([], rho, hi);
    assert raw == PkBytes(rho, hi);
    var hat := ComputeT1Hat(hi);
    var pub := PublicKey(p, raw, m.a, hat, KeyHash(sh, raw));
    var priv := PrivateKey(seed, pub, s1, s2, t0, key);
    assert forall i :: 0 <= i < |hi| ==> t[i] == TRow(priv, i);
    PrivateKeyEquation(sh, limit, priv, hi);
    return Priv(priv), hi;
  }
}
