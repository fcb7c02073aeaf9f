/**
 internal/mldsa/mldsa.go: signInternal and verifyInternal (sections 6.2 and 6.3
 of FIPS 204). Whatever signInternal returns, verifyInternal accepts.
 */
module Signing {
  import opened Field
  import opened Zetas
  import opened Poly
  import opened NttSpec
  import opened NttCode
  import opened Hints
  import opened HintCodec
  import opened Bytes
  import opened Packing
  import opened Codec
  import opened Parameters
  import opened Sampling
  import opened Challenge
  import opened Vectors
  import opened Keys

  //////////////////////////////////////////////////////////////////////////////
  // Bounds
  //////////////////////////////////////////////////////////////////////////////

  function Beta(p: Params): (b: nat)
  {
    p.tau * p.eta
  }

  /** gamma1 - beta. */
  function ResponseBound(p: Params): (b: int)
  {
    Offset(p.gamma1 + 1) - Beta(p)
  }

  lemma SoundBounds(p: Params)
    requires Sound(p)
    ensures SignatureWidth(p.gamma1 + 1) && Gamma2(p.gamma2) && p.tau <= 64 && p.omega < 256
    ensures 0 < ResponseBound(p) <= Offset(p.gamma1 + 1)
    ensures 0 < Gamma2Value(p.gamma2) - Beta(p)
  {
  }

  ghost predicate AllNormBelow(v: seq<Polynomial>, bound: nat)
  {
    forall i :: 0 <= i < |v| ==> NormBelow(v[i], bound)
  }

  ghost predicate AllLowBitsBelow(v: seq<Polynomial>, bound: int, den: nat)
    requires Gamma2(den)
  {
    forall i :: 0 <= i < |v| ==> LowBitsBelow(v[i], bound, den)
  }

  //////////////////////////////////////////////////////////////////////////////
  // Vectors of rounded elements
  //////////////////////////////////////////////////////////////////////////////

  function VecSub(u: seq<Polynomial>, v: seq<Polynomial>): (r: seq<Polynomial>)
    requires |u| == |v| && RingVector(u) && RingVector(v)
    ensures |r| == |u| && RingVector(r)
    ensures forall i :: 0 <= i < |u| ==> r[i] == PolySub(u[i], v[i])
  {
    seq(|u|, i requires 0 <= i < |u| => PolySub(u[i], v[i]))
  }

  function HighBitsAll(w: seq<Polynomial>, den: nat): (r: seq<Bits>)
    requires Gamma2(den) && RingVector(w)
    ensures |r| == |w| && Vector(r)
    ensures forall i :: 0 <= i < |w| ==> r[i] == HighBitsSpec(w[i], den)
  {
    seq(|w|, i requires 0 <= i < |w| => HighBitsSpec(w[i], den))
  }

  function MakeHints(ct0: seq<Polynomial>, w: seq<Polynomial>, cs2: seq<Polynomial>, den: nat): (h: seq<Bits>)
    requires Gamma2(den) && |ct0| == |w| == |cs2| && RingVector(ct0) && RingVector(w) && RingVector(cs2)
    ensures |h| == |w| && AllBinary(h)
    ensures forall i :: 0 <= i < |w| ==> h[i] == MakeHintSpec(ct0[i], w[i], cs2[i], den)
  {
    seq(|w|, i requires 0 <= i < |w| => MakeHintSpec(ct0[i], w[i], cs2[i], den))
  }

  function UseHints(r: seq<Polynomial>, h: seq<Bits>, den: nat): (w: seq<Bits>)
    requires Gamma2(den) && |r| == |h| && RingVector(r) && AllBinary(h)
    ensures |w| == |r| && Vector(w)
    ensures forall i :: 0 <= i < |r| ==> w[i] == UseHintSpec(r[i], h[i], den)
  {
    seq(|r|, i requires 0 <= i < |r| => UseHintSpec(r[i], h[i], den))
  }

  /** The sum of the counts that makeHint returns. */
  function TotalOnes(hs: seq<Bits>): (n: nat)
  {
    if hs == [] then 0 else TotalOnes(hs[..|hs| - 1]) + Ones(hs[|hs| - 1])
  }

  lemma {:induction false} TotalIsPositions(hs: seq<Bits>)
    requires AllBinary(hs)
    ensures |AllPositions(hs)| == TotalOnes(hs)
  {
    hide Positions, Ones;
    if hs != [] {
      var n := |hs| - 1;
      TotalIsPositions(hs[..n]);
      PositionsCount(hs[n], 256);
      assert hs[n][..256] == hs[n];
    }
  }

  //////////////////////////////////////////////////////////////////////////////
  // One attempt
  //////////////////////////////////////////////////////////////////////////////

  /** The two counter bytes: uint16(kappa), little-endian. */
  function Counter(kappa: nat): (c: seq<byte>)
  {
    [ToByte(kappa), ToByte(kappa / 256)]
  }

  function MaskPoly(sh: Shake, bits: nat, nonce: seq<byte>, kappa: nat): (y: Polynomial)
    requires SignatureWidth(bits)
    ensures RingElement(y)
  {
    Unpack(bits, Output(Stream256(sh, nonce + Counter(kappa)), 0, 32 * bits))
  }

  /** The mask y: l polynomials under consecutive counters. */
  function Mask(sh: Shake, bits: nat, nonce: seq<byte>, kappa: nat, l: nat): (y: seq<Polynomial>)
    requires SignatureWidth(bits)
    ensures |y| == l && RingVector(y)
    ensures forall r :: 0 <= r < l ==> y[r] == MaskPoly(sh, bits, nonce, kappa + r)
  {
    hide Unpack;
    var y := seq(l, r requires 0 <= r < l => MaskPoly(sh, bits, nonce, kappa + r));
    assert forall r :: 0 <= r < l ==> y[r] == MaskPoly(sh, bits, nonce, kappa + r);
    y
  }

  /** The hash of mu and the encoded commitment. */
  function ChallengeHash(sh: Shake, mu: seq<byte>, w1: seq<Bits>, p: Params): (ch: seq<byte>)
    requires Gamma2(p.gamma2) && Vector(w1)
    ensures |ch| == p.lambda / 4
  {
    Output(Stream256(sh, mu + PackAll(CommitmentBits(p.gamma2), w1)), 0, p.lambda / 4)
  }

  datatype Attempt =
    | Success(ch: seq<byte>, z: seq<Polynomial>, h: seq<Bits>)
    | Rejected(reason: Reason)
    | Unsampled

  datatype Reason = ReasonZ | ReasonR0 | ReasonCt0 | ReasonHints

  /** The checks of signInternal and its response, for a mask y, a commitment w and a challenge c. */
  ghost function Respond(priv: PrivateKey, y: seq<Polynomial>, w: seq<Polynomial>, ch: seq<byte>,
                         c: Polynomial): (r: Attempt)
    requires WellFormed(priv) && RingElement(c)
    requires RingVector(y) && |y| == priv.pub.p.l && RingVector(w) && |w| == priv.pub.p.k
  {
    var p := priv.pub.p;
    SoundBounds(p);
    var z := VecAdd(y, Scaled(c, priv.s1));
    var cs2 := Scaled(c, priv.s2);
    var ct0 := Scaled(c, priv.t0);
    if !AllNormBelow(z, ResponseBound(p)) then Rejected(ReasonZ)
    else if !AllLowBitsBelow(VecSub(w, cs2), Gamma2Value(p.gamma2) - Beta(p), p.gamma2) then Rejected(ReasonR0)
    else if !AllNormBelow(ct0, Gamma2Value(p.gamma2)) then Rejected(ReasonCt0)
    else
      var h := MakeHints(ct0, w, cs2, p.gamma2);
      if TotalOnes(h) > p.omega then Rejected(ReasonHints) else Success(ch, z, h)
  }

  /** One turn of the rejection loop, starting at counter kappa. */
  ghost function AttemptAt(sh: Shake, priv: PrivateKey, mu: seq<byte>, nonce: seq<byte>, kappa: nat,
                           limit: nat): (r: Attempt)
    requires WellFormed(priv)
  {
    var p := priv.pub.p;
    SoundBounds(p);
    var y := Mask(sh, p.gamma1 + 1, nonce, kappa, p.l);
    var w := Commitment(priv.pub.a, y);
    var ch := ChallengeHash(sh, mu, HighBitsAll(w, p.gamma2), p);
    var ball := BallOf(Stream256(sh, ch), p.tau, limit);
    if ball.Exhausted? then Unsampled else Respond(priv, y, w, ch, Transform(ball.f))
  }

  /** A response that passes the checks can be encoded. */
  lemma ResponseEncodes(priv: PrivateKey, y: seq<Polynomial>, w: seq<Polynomial>, ch: seq<byte>, c: Polynomial)
    requires WellFormed(priv) && RingElement(c) && |ch| == priv.pub.p.lambda / 4
    requires RingVector(y) && |y| == priv.pub.p.l && RingVector(w) && |w| == priv.pub.p.k
    ensures var r := Respond(priv, y, w, ch, c);
            r.Success? ==> Encodes(r.ch, r.z, r.h, priv.pub.p)
  {
    hide Scaled, MakeHints, VecAdd, VecSub, AllLowBitsBelow, AllPositions, TotalOnes, NormBelow, Packable, Sound;
    hide ResponseBound, Beta, Gamma2Value, Offset;
    var r := Respond(priv, y, w, ch, c);
    var p := priv.pub.p;
    SoundBounds(p);
    if r.Success? {
      TotalIsPositions(r.h);
      forall i | 0 <= i < |r.z|
        ensures Packable(p.gamma1 + 1, r.z[i])
      {
        SmallIsPackable(p.gamma1 + 1, r.z[i], ResponseBound(p));
      }
    }
  }

  lemma SmallIsPackable(bits: nat, f: Polynomial, bound: int)
    requires 0 < bound <= Offset(bits) && NormBelow(f, bound)
    ensures Packable(bits, f)
  {
    hide FromMontgomery, Offset;
    forall i | 0 <= i < |f|
      ensures -(Offset(bits) as int) < CenteredMod(f[i]) <= Offset(bits)
    {
      assert InfinityNorm(f[i]) < bound;
    }
  }

  //////////////////////////////////////////////////////////////////////////////
  // Verification
  //////////////////////////////////////////////////////////////////////////////

  datatype Verdict = Valid | BadEncoding(error: SigError) | BadBounds | BadChallenge | VerifyUnsampled

  ghost function Judge(sh: Shake, pub: PublicKey, mu: seq<byte>, ch: seq<byte>, z: seq<Polynomial>, h: seq<Bits>,
                       c: Polynomial): (v: Verdict)
    requires WellFormedPub(pub) && RingVector(z) && |z| == pub.p.l && RingElement(c) && |h| == pub.p.k && AllBinary(h)
  {
    var p := pub.p;
    SoundBounds(p);
    var w1 := UseHints(Approx(pub.a, pub.t1, z, c), h, p.gamma2);
    if !AllNormBelow(z, ResponseBound(p)) then BadBounds
    else if ch != ChallengeHash(sh, mu, w1, p) then BadChallenge
    else Valid
  }

  /** verifyInternal. */
  ghost function VerifyAt(sh: Shake, pub: PublicKey, mu: seq<byte>, sig: seq<byte>, limit: nat): (v: Verdict)
    requires WellFormedPub(pub)
  {
    var p := pub.p;
    SoundBounds(p);
    var d := DecodeSig(sig, p);
    if d.SigErr? then BadEncoding(d.error)
    else
      var ball := BallOf(Stream256(sh, d.ch), p.tau, limit);
      if ball.Exhausted? then VerifyUnsampled
      else Judge(sh, pub, mu, d.ch, d.z, d.h, Transform(ball.f))
  }

  //////////////////////////////////////////////////////////////////////////////
  // What a valid signature is
  //////////////////////////////////////////////////////////////////////////////

  /** Every coefficient of z has infinity norm below gamma1 - beta. */
  ghost predicate ShortResponse(z: seq<Polynomial>, p: Params)
    requires RingVector(z)
  {
    forall i, j :: 0 <= i < |z| && 0 <= j < 256 ==> InfinityNorm(z[i][j]) < Pow2(p.gamma1) - p.tau * p.eta
  }

  /** w1 holds the high parts of A z - c t1 2^13, corrected by the hints h. */
  ghost predicate Recommits(pub: PublicKey, z: seq<Polynomial>, h: seq<Bits>, c: Polynomial, w1: seq<Bits>)
    requires WellFormedPub(pub) && RingVector(z) && |z| == pub.p.l && RingElement(c) && |h| == pub.p.k && AllBinary(h)
  {
    && |w1| == pub.p.k && Vector(w1)
    && forall i :: 0 <= i < pub.p.k ==>
         w1[i] == UseHintSpec(PolySub(RowSum(pub.a[i], z), Product(c, InverseTransform(pub.t1[i]))), h[i], pub.p.gamma2)
  }

  /** The first lambda / 4 bytes of v are the hash of mu and the packed commitment. */
  ghost predicate Hashes(sh: Shake, mu: seq<byte>, w1: seq<Bits>, p: Params, v: seq<byte>)
    requires Gamma2(p.gamma2) && Vector(w1) && |v| >= p.lambda / 4
  {
    forall i :: 0 <= i < p.lambda / 4 ==> v[i] == sh.s256(mu + PackAll(CommitmentBits(p.gamma2), w1), i)
  }

  /** sig is the encoding of (ch, z, h), and the challenge c is drawn from ch. */
  ghost predicate Reads(sh: Shake, pub: PublicKey, sig: seq<byte>, limit: nat, ch: seq<byte>, z: seq<Polynomial>,
                        h: seq<Bits>, c: Polynomial)
    requires WellFormedPub(pub)
  {
    && Encodes(ch, z, h, pub.p) && sig == SigBytes(ch, z, h, pub.p)
    && BallOf(Stream256(sh, ch), pub.p.tau, limit) == Sampled(c)
  }

  lemma ShortIs(z: seq<Polynomial>, p: Params)
    requires RingVector(z) && Sound(p)
    ensures 0 < ResponseBound(p) && (AllNormBelow(z, ResponseBound(p)) <==> ShortResponse(z, p))
  {
    hide InfinityNorm;
    BoundIs(p);
    if AllNormBelow(z, ResponseBound(p)) {
      forall i, j | 0 <= i < |z| && 0 <= j < 256
        ensures InfinityNorm(z[i][j]) < Pow2(p.gamma1) - p.tau * p.eta
      {
        assert NormBelow(z[i], ResponseBound(p));
      }
    }
  }

  lemma BoundIs(p: Params)
    requires Sound(p)
    ensures ResponseBound(p) == Pow2(p.gamma1) - p.tau * p.eta && 0 < ResponseBound(p)
  {
    hide Pow2;
    SoundBounds(p);
    Pow2Values();
    Pow2Sixteen();
    Pow2Sum(16, 1);
    Pow2Sum(16, 3);
  }

  lemma RecommitIs(pub: PublicKey, z: seq<Polynomial>, h: seq<Bits>, c: Polynomial)
    requires WellFormedPub(pub) && RingVector(z) && |z| == pub.p.l && RingElement(c) && |h| == pub.p.k && AllBinary(h)
    ensures Recommits(pub, z, h, c, UseHints(Approx(pub.a, pub.t1, z, Transform(c)), h, pub.p.gamma2))
  {
    hide Approx, Transform, InverseTransform, RowSum, Product, PolySub, UseHintSpec;
    var approx := Approx(pub.a, pub.t1, z, Transform(c));
    forall i | 0 <= i < pub.p.k
      ensures UseHints(approx, h, pub.p.gamma2)[i]
              == UseHintSpec(PolySub(RowSum(pub.a[i], z), Product(c, InverseTransform(pub.t1[i]))), h[i], pub.p.gamma2)
    {
      ApproxInRing(pub.a, pub.t1, z, c, i);
    }
  }

  lemma RecommitUnique(pub: PublicKey, z: seq<Polynomial>, h: seq<Bits>, c: Polynomial, w1: seq<Bits>, w1': seq<Bits>)
    requires WellFormedPub(pub) && RingVector(z) && |z| == pub.p.l && RingElement(c) && |h| == pub.p.k && AllBinary(h)
    requires Recommits(pub, z, h, c, w1) && Recommits(pub, z, h, c, w1')
    ensures w1 == w1'
  {
    hide InverseTransform, RowSum, Product, PolySub, UseHintSpec, AllBinary;
  }

  lemma HashIs(sh: Shake, mu: seq<byte>, w1: seq<Bits>, p: Params, v: seq<byte>)
    requires Gamma2(p.gamma2) && Vector(w1) && |v| >= p.lambda / 4
    ensures v[..p.lambda / 4] == ChallengeHash(sh, mu, w1, p) <==> Hashes(sh, mu, w1, p, v)
  {
    hide PackAll;
    var ch := ChallengeHash(sh, mu, w1, p);
    forall i | 0 <= i < p.lambda / 4
      ensures ch[i] == sh.s256(mu + PackAll(CommitmentBits(p.gamma2), w1), i)
    {
    }
    if v[..p.lambda / 4] == ch {
      assert forall i :: 0 <= i < p.lambda / 4 ==> v[i] == v[..p.lambda / 4][i];
    }
  }

  lemma SigStart(ch: seq<byte>, z: seq<Polynomial>, h: seq<Bits>, p: Params)
    requires Encodes(ch, z, h, p)
    ensures |SigBytes(ch, z, h, p)| >= p.lambda / 4 && SigBytes(ch, z, h, p)[..p.lambda / 4] == ch
  {
    hide PackVector, HintBytes, Encodable, AllPackable;
  }

  /** The verdict on a signature that can be read: the bounds first, then the hash. */
  lemma ReadVerdict(sh: Shake, pub: PublicKey, mu: seq<byte>, sig: seq<byte>, limit: nat, ch: seq<byte>,
                    z: seq<Polynomial>, h: seq<Bits>, c: Polynomial, w1: seq<Bits>)
    requires WellFormedPub(pub) && Reads(sh, pub, sig, limit, ch, z, h, c)
    requires RingVector(z) && |z| == pub.p.l && |h| == pub.p.k && AllBinary(h) && |sig| >= pub.p.lambda / 4
    requires Recommits(pub, z, h, c, w1)
    ensures VerifyAt(sh, pub, mu, sig, limit)
            == if !ShortResponse(z, pub.p) then BadBounds
               else if !Hashes(sh, mu, w1, pub.p, sig) then BadChallenge else Valid
  {
    hide Transform, InverseTransform, Approx, BallOf, UseHints, ChallengeHash, DecodeSig, SigBytes, Encodes, Sound;
    hide Recommits, ShortResponse, Hashes, AllNormBelow, ResponseBound, RingVector, AllBinary, Gamma2, RingMatrix;
    var p := pub.p;
    SoundBounds(p);
    SigRoundTrip(ch, z, h, p);
    SigStart(ch, z, h, p);
    ShortIs(z, p);
    RecommitIs(pub, z, h, c);
    RecommitUnique(pub, z, h, c, w1, UseHints(Approx(pub.a, pub.t1, z, Transform(c)), h, p.gamma2));
    HashIs(sh, mu, w1, p, sig);
  }

  /** sig is valid for mu: its parts can be read, the response is short, and it starts with the hash of mu and w1. */
  ghost predicate Certifies(sh: Shake, pub: PublicKey, mu: seq<byte>, sig: seq<byte>, limit: nat, ch: seq<byte>,
                            z: seq<Polynomial>, h: seq<Bits>, c: Polynomial, w1: seq<Bits>)
    requires WellFormedPub(pub)
  {
    && Reads(sh, pub, sig, limit, ch, z, h, c)
    && RingVector(z) && |z| == pub.p.l && |h| == pub.p.k && AllBinary(h) && |sig| >= pub.p.lambda / 4
    && ShortResponse(z, pub.p) && Recommits(pub, z, h, c, w1) && Hashes(sh, mu, w1, pub.p, sig)
  }

  lemma ReadParts(sh: Shake, pub: PublicKey, mu: seq<byte>, sig: seq<byte>, limit: nat)
    returns (ch: seq<byte>, z: seq<Polynomial>, h: seq<Bits>, c: Polynomial, w1: seq<Bits>)
    requires WellFormedPub(pub)
    requires var v := VerifyAt(sh, pub, mu, sig, limit); !v.BadEncoding? && !v.VerifyUnsampled?
    ensures Reads(sh, pub, sig, limit, ch, z, h, c)
    ensures RingVector(z) && |z| == pub.p.l && |h| == pub.p.k && AllBinary(h) && |sig| >= pub.p.lambda / 4
    ensures Recommits(pub, z, h, c, w1)
  {
    hide Transform, InverseTransform, Approx, BallOf, UseHints, ChallengeHash, DecodeSig, SigBytes, Encodes, Sound;
    hide Recommits, AllNormBelow, ResponseBound, AllBinary, Gamma2, RingMatrix, Judge;
    var p := pub.p;
    SoundBounds(p);
    SigCanonical(sig, p);
    var d := DecodeSig(sig, p);
    ch, z, h := d.ch, d.z, d.h;
    c := BallOf(Stream256(sh, ch), p.tau, limit).f;
    SigStart(ch, z, h, p);
    w1 := UseHints(Approx(pub.a, pub.t1, z, Transform(c)), h, p.gamma2);
    RecommitIs(pub, z, h, c);
  }

  /** Some reading of the bytes certifies mu. */
  ghost predicate ValidFor(sh: Shake, pub: PublicKey, mu: seq<byte>, sig: seq<byte>, limit: nat)
    requires WellFormedPub(pub)
  {
    exists ch, z, h, c, w1 :: Certifies(sh, pub, mu, sig, limit, ch, z, h, c, w1)
  }

  /**
   verifyInternal answers Valid exactly when the bytes encode (ch, z, h), the challenge is drawn
   from ch, the response is short, and the bytes start with the hash of mu and the recomputed
   commitment.
   */
  lemma VerifyIff(sh: Shake, pub: PublicKey, mu: seq<byte>, sig: seq<byte>, limit: nat)
    requires WellFormedPub(pub)
    ensures VerifyAt(sh, pub, mu, sig, limit) == Valid <==> ValidFor(sh, pub, mu, sig, limit)
  {
    hide VerifyAt, Reads, ShortResponse, Recommits, Hashes, RingVector, AllBinary, WellFormedPub;
    if VerifyAt(sh, pub, mu, sig, limit) == Valid {
      var ch, z, h, c, w1 := ReadParts(sh, pub, mu, sig, limit);
      ReadVerdict(sh, pub, mu, sig, limit, ch, z, h, c, w1);
      assert Certifies(sh, pub, mu, sig, limit, ch, z, h, c, w1);
    }
    if ValidFor(sh, pub, mu, sig, limit) {
      var ch, z, h, c, w1 :| Certifies(sh, pub, mu, sig, limit, ch, z, h, c, w1);
      ReadVerdict(sh, pub, mu, sig, limit, ch, z, h, c, w1);
    }
  }

  /** The bytes are the encoding of these parts. */
  ghost predicate EncodedAs(sig: seq<byte>, p: Params, ch: seq<byte>, z: seq<Polynomial>, h: seq<Bits>)
  {
    Encodes(ch, z, h, p) && sig == SigBytes(ch, z, h, p)
  }

  /** sigDecode returns the parts exactly when the bytes are their encoding. */
  lemma DecodesIff(sig: seq<byte>, p: Params, ch: seq<byte>, z: seq<Polynomial>, h: seq<Bits>)
    requires Sound(p)
    ensures DecodeSig(sig, p) == SigOk(ch, z, h) <==> EncodedAs(sig, p, ch, z, h)
  {
    hide DecodeSig, SigBytes, Encodes, Sound;
    if DecodeSig(sig, p) == SigOk(ch, z, h) {
      SigCanonical(sig, p);
    }
    if EncodedAs(sig, p, ch, z, h) {
      SigRoundTrip(ch, z, h, p);
    }
  }

  /** An encoding error is reported exactly when no parts encode to the bytes. */
  lemma EncodingVerdict(sh: Shake, pub: PublicKey, mu: seq<byte>, sig: seq<byte>, limit: nat)
    requires WellFormedPub(pub)
    ensures VerifyAt(sh, pub, mu, sig, limit).BadEncoding? <==> !exists ch, z, h :: EncodedAs(sig, pub.p, ch, z, h)
  {
    hide Transform, BallOf, DecodeSig, EncodedAs, Sound, RingVector, RingMatrix, Judge, Gamma2, AllBinary;
    var p := pub.p;
    SoundBounds(p);
    var d := DecodeSig(sig, p);
    if d.SigOk? {
      DecodesIff(sig, p, d.ch, d.z, d.h);
      if BallOf(Stream256(sh, d.ch), p.tau, limit).Sampled? {
        JudgeAnswers(sh, pub, mu, d.ch, d.z, d.h, Transform(BallOf(Stream256(sh, d.ch), p.tau, limit).f));
      }
    }
    if exists ch, z, h :: EncodedAs(sig, p, ch, z, h) {
      var ch, z, h :| EncodedAs(sig, p, ch, z, h);
      DecodesIff(sig, p, ch, z, h);
    }
  }

  /** No verdict is reached exactly when the challenge of the encoded hash is not drawn. */
  lemma SamplingVerdict(sh: Shake, pub: PublicKey, mu: seq<byte>, sig: seq<byte>, limit: nat, ch: seq<byte>,
                        z: seq<Polynomial>, h: seq<Bits>)
    requires WellFormedPub(pub) && EncodedAs(sig, pub.p, ch, z, h)
    ensures VerifyAt(sh, pub, mu, sig, limit).VerifyUnsampled? <==>
              pub.p.tau <= 64 && BallOf(Stream256(sh, ch), pub.p.tau, limit).Exhausted?
  {
    hide Transform, BallOf, DecodeSig, EncodedAs, Sound, RingVector, RingMatrix, Judge, Gamma2, AllBinary;
    var p := pub.p;
    SoundBounds(p);
    DecodesIff(sig, p, ch, z, h);
    if BallOf(Stream256(sh, ch), p.tau, limit).Sampled? {
      JudgeAnswers(sh, pub, mu, ch, z, h, Transform(BallOf(Stream256(sh, ch), p.tau, limit).f));
    }
  }

  lemma JudgeAnswers(sh: Shake, pub: PublicKey, mu: seq<byte>, ch: seq<byte>, z: seq<Polynomial>, h: seq<Bits>,
                     c: Polynomial)
    requires WellFormedPub(pub) && RingVector(z) && |z| == pub.p.l && RingElement(c) && |h| == pub.p.k && AllBinary(h)
    ensures var v := Judge(sh, pub, mu, ch, z, h, c); !v.BadEncoding? && !v.VerifyUnsampled?
  {
    hide AllNormBelow, ResponseBound, UseHints, Approx, ChallengeHash, RingVector, AllBinary;
  }

  /** One signature valid for two messages under one key: both hashes, of one commitment, are its first bytes. */
  lemma OneSignatureTwoMessages(sh: Shake, pub: PublicKey, mu: seq<byte>, mu': seq<byte>, sig: seq<byte>, limit: nat)
    returns (w1: seq<Bits>)
    requires WellFormedPub(pub)
    requires VerifyAt(sh, pub, mu, sig, limit) == Valid && VerifyAt(sh, pub, mu', sig, limit) == Valid
    ensures Gamma2(pub.p.gamma2) && Vector(w1) && |sig| >= pub.p.lambda / 4
    ensures Hashes(sh, mu, w1, pub.p, sig) && Hashes(sh, mu', w1, pub.p, sig)
  {
    hide VerifyAt, Reads, ShortResponse, Hashes, RingVector, AllBinary, RingMatrix, InverseTransform, RowSum, Product;
    hide UseHintSpec, PolySub;
    var ch, z, h, c, w := ReadParts(sh, pub, mu, sig, limit);
    w1 := w;
    ReadVerdict(sh, pub, mu, sig, limit, ch, z, h, c, w1);
    ReadVerdict(sh, pub, mu', sig, limit, ch, z, h, c, w1);
    SoundBounds(pub.p);
  }

  //////////////////////////////////////////////////////////////////////////////
  // The verifier recovers the signer's commitment
  //////////////////////////////////////////////////////////////////////////////

  /** cs2 is short: it is the product of the challenge with a secret. */
  lemma ScaledNorm(s2: Polynomial, stream: nat -> byte, tau: nat, limit: nat, ball: Polynomial, eta: nat, beta: nat)
    requires RingElement(s2) && NormBelow(InverseTransform(s2), eta + 1)
    requires tau <= 64 && beta == tau * eta && BallOf(stream, tau, limit) == Sampled(ball)
    ensures NormBelow(InverseTransform(PointwiseMul(Transform(ball), s2)), beta + 1)
  {
    hide Transform, InverseTransform, PointwiseMul, BallOf, NormBelow, Product;
    var s := InverseTransform(s2);
    TransformOfInverseTransform(s2);
    TransformedProduct(ball, s);
    ChallengeNorm(stream, tau, limit, ball, s, eta, beta);
  }

  /** The hints turn the verifier's w' back into the signer's high bits. */
  lemma HintsRecover(priv: PrivateKey, y: seq<Polynomial>, w: seq<Polynomial>, ch: seq<byte>, c: Polynomial,
                     stream: nat -> byte, limit: nat, ball: Polynomial, r: Attempt)
    requires KeyEquation(priv) && RingVector(y) && |y| == priv.pub.p.l && w == Commitment(priv.pub.a, y)
    requires priv.pub.p.tau <= 64 && BallOf(stream, priv.pub.p.tau, limit) == Sampled(ball) && c == Transform(ball)
    requires RingVector(w) && |w| == priv.pub.p.k && r == Respond(priv, y, w, ch, c) && r.Success?
    ensures Gamma2(priv.pub.p.gamma2) && RingVector(r.z) && |r.z| == priv.pub.p.l && |r.h| == priv.pub.p.k
            && AllBinary(r.h)
    ensures UseHints(Approx(priv.pub.a, priv.pub.t1, r.z, c), r.h, priv.pub.p.gamma2)
            == HighBitsAll(w, priv.pub.p.gamma2)
  {
    hide Transform, InverseTransform, PolyAdd, PolySub, PointwiseMul, NormBelow, LowBitsBelow, Approx, Commitment;
    hide VecAdd, VecSub, BallOf, MakeHints, MakeHintSpec, UseHints, UseHintSpec, HighBitsAll, HighBitsSpec, Balanced;
    hide Scaled, TotalOnes, Sound, Gamma2Value, ResponseBound, AllBinary, ApproxRow, MulAdd, Zero, TransformAll;
    var p := priv.pub.p;
    SoundBounds(p);
    var cs2, ct0 := Scaled(c, priv.s2), Scaled(c, priv.t0);
    var approx := Approx(priv.pub.a, priv.pub.t1, r.z, c);
    forall i | 0 <= i < p.k
      ensures UseHints(approx, r.h, p.gamma2)[i] == HighBitsAll(w, p.gamma2)[i]
    {
      ApproxAt(priv.pub.a, priv.pub.t1, r.z, c, i);
      ApproxIs(priv.pub.a[i], priv.s1, priv.pub.t1[i], priv.t0[i], priv.s2[i], y, c);
      ScaledNorm(priv.s2[i], stream, p.tau, limit, ball, p.eta, Beta(p));
      assert VecSub(w, cs2)[i] == PolySub(w[i], cs2[i]);
      HintTheorem(ct0[i], w[i], cs2[i], Beta(p), p.gamma2);
    }
  }

  //////////////////////////////////////////////////////////////////////////////
  // Whatever is signed verifies
  //////////////////////////////////////////////////////////////////////////////

  /** An attempt that succeeds can be encoded, and its encoding is accepted. */
  lemma AttemptVerifies(sh: Shake, priv: PrivateKey, mu: seq<byte>, nonce: seq<byte>, kappa: nat, limit: nat,
                        limit': nat, r: Attempt)
    requires KeyEquation(priv) && r == AttemptAt(sh, priv, mu, nonce, kappa, limit) && r.Success?
    ensures Encodes(r.ch, r.z, r.h, priv.pub.p)
    ensures var v := VerifyAt(sh, priv.pub, mu, SigBytes(r.ch, r.z, r.h, priv.pub.p), limit');
            (v == Valid || v == VerifyUnsampled) && (limit <= limit' ==> v == Valid)
  {
    hide Transform, InverseTransform, NormBelow, Approx, Commitment, BallOf, UseHints, HighBitsAll, Balanced, Sound;
    hide ResponseBound, Mask, ChallengeHash, DecodeSig, SigBytes, Respond, KeyEquation, RingVector;
    hide VecAdd, VecSub, Scaled, Encodes, MakeHints, Gamma2;
    assert WellFormed(priv) by {
      EquationShape(priv);
    }
    var p := priv.pub.p;
    SoundBounds(p);
    var y := Mask(sh, p.gamma1 + 1, nonce, kappa, p.l);
    var w := Commitment(priv.pub.a, y);
    var ch := ChallengeHash(sh, mu, HighBitsAll(w, p.gamma2), p);
    var ball := BallOf(Stream256(sh, ch), p.tau, limit);
    var c := Transform(ball.f);
    SuccessParts(priv, y, w, ch, c);
    ResponseEncodes(priv, y, w, ch, c);
    HintsRecover(priv, y, w, ch, c, Stream256(sh, ch), limit, ball.f, r);
    SigRoundTrip(r.ch, r.z, r.h, p);
    BallAgrees(Stream256(sh, ch), p.tau, limit, limit');
  }

  lemma EquationShape(priv: PrivateKey)
    requires KeyEquation(priv)
    ensures WellFormed(priv)
  {
  }

  lemma SuccessParts(priv: PrivateKey, y: seq<Polynomial>, w: seq<Polynomial>, ch: seq<byte>, c: Polynomial)
    requires WellFormed(priv) && RingElement(c)
    requires RingVector(y) && |y| == priv.pub.p.l && RingVector(w) && |w| == priv.pub.p.k
    ensures var r := Respond(priv, y, w, ch, c);
            r.Success? ==> r.ch == ch && 0 < ResponseBound(priv.pub.p) && AllNormBelow(r.z, ResponseBound(priv.pub.p))
    ensures !Respond(priv, y, w, ch, c).Unsampled?
  {
    hide VecAdd, VecSub, Scaled, MakeHints, NormBelow, AllNormBelow, AllLowBitsBelow, TotalOnes;
    hide ResponseBound, Beta, Gamma2Value, Sound, RingVector, RingMatrix;
    SoundBounds(priv.pub.p);
  }

  /** Two limits that both yield a challenge yield the same one. */
  lemma BallAgrees(stream: nat -> byte, tau: nat, limit: nat, limit': nat)
    requires tau <= 64 && BallOf(stream, tau, limit).Sampled?
    ensures BallOf(stream, tau, limit').Sampled? ==> BallOf(stream, tau, limit') == BallOf(stream, tau, limit)
    ensures limit <= limit' ==> BallOf(stream, tau, limit').Sampled?
  {
    hide BallOf;
    if limit <= limit' {
      BallLimit(stream, tau, limit, limit');
    } else if BallOf(stream, tau, limit').Sampled? {
      BallLimit(stream, tau, limit', limit);
    }
  }

  datatype SignResult = Signature(sig: seq<byte>) | NotSigned

  /** The rejection loop from counter kappa on, with at most the given number of turns. */
  ghost function SignFrom(sh: Shake, priv: PrivateKey, mu: seq<byte>, nonce: seq<byte>, kappa: nat, attempts: nat,
                          limit: nat): (r: SignResult)
    requires WellFormed(priv)
    decreases attempts
  {
    hide AttemptAt, SigBytes, Encodes;
    if attempts == 0 then NotSigned
    else
      var a := AttemptAt(sh, priv, mu, nonce, kappa, limit);
      if a.Unsampled? then NotSigned
      else if a.Rejected? then SignFrom(sh, priv, mu, nonce, kappa + priv.pub.p.l, attempts - 1, limit)
      else
        AttemptEncodes(sh, priv, mu, nonce, kappa, limit);
        Signature(SigBytes(a.ch, a.z, a.h, priv.pub.p))
  }

  lemma AttemptEncodes(sh: Shake, priv: PrivateKey, mu: seq<byte>, nonce: seq<byte>, kappa: nat, limit: nat)
    requires WellFormed(priv)
    ensures var a := AttemptAt(sh, priv, mu, nonce, kappa, limit); a.Success? ==> Encodes(a.ch, a.z, a.h, priv.pub.p)
  {
    hide Transform, Commitment, BallOf, HighBitsAll, Sound, Mask, ChallengeHash, Respond, RingVector, Encodes;
    var p := priv.pub.p;
    SoundBounds(p);
    var y := Mask(sh, p.gamma1 + 1, nonce, kappa, p.l);
    var w := Commitment(priv.pub.a, y);
    var ch := ChallengeHash(sh, mu, HighBitsAll(w, p.gamma2), p);
    var ball := BallOf(Stream256(sh, ch), p.tau, limit);
    if ball.Sampled? {
      ResponseEncodes(priv, y, w, ch, Transform(ball.f));
    }
  }

  //////////////////////////////////////////////////////////////////////////////
  // What a signature is made of
  //////////////////////////////////////////////////////////////////////////////

  /** The little-endian bytes of a counter of 16 bits. */
  ghost predicate IsCounter(v: seq<byte>, kappa: nat)
  {
    |v| == 2 && var b0: nat, b1: nat := v[0], v[1]; b0 + 256 * b1 == kappa % 0x1_0000
  }

  /** f unpacks the first bytes of the hash of the nonce and the counter n. */
  ghost predicate MaskRow(sh: Shake, bits: nat, nonce: seq<byte>, n: nat, f: Polynomial)
    requires SignatureWidth(bits)
  {
    exists v: seq<byte>, out: seq<byte> ::
      && IsCounter(v, n) && |out| == 32 * bits && f == Unpack(bits, out)
      && forall i :: 0 <= i < |out| ==> out[i] == sh.s256(nonce + v, i)
  }

  /** y is the mask of the attempt at counter kappa: row r under the counter kappa + r. */
  ghost predicate Masks(sh: Shake, p: Params, nonce: seq<byte>, kappa: nat, y: seq<Polynomial>)
    requires SignatureWidth(p.gamma1 + 1)
  {
    |y| == p.l && RingVector(y) && forall r :: 0 <= r < p.l ==> MaskRow(sh, p.gamma1 + 1, nonce, kappa + r, y[r])
  }

  /** The commitment, its hash and the challenge that belong to a mask. */
  ghost predicate Commits(sh: Shake, priv: PrivateKey, mu: seq<byte>, limit: nat, y: seq<Polynomial>,
                          w: seq<Polynomial>, w1: seq<Bits>, ch: seq<byte>, c: Polynomial)
    requires WellFormed(priv) && RingVector(y) && |y| == priv.pub.p.l
  {
    var p := priv.pub.p;
    && |w| == |w1| == p.k && RingVector(w) && Vector(w1) && |ch| == p.lambda / 4
    && (forall i :: 0 <= i < p.k ==> w[i] == RowSum(priv.pub.a[i], y) && w1[i] == HighBitsSpec(w[i], p.gamma2))
    && Hashes(sh, mu, w1, p, ch) && BallOf(Stream256(sh, ch), p.tau, limit) == Sampled(c)
  }

  /** The response z = y + c s1 and the products c s2 and c t0, in the ring. */
  ghost predicate Answers(priv: PrivateKey, y: seq<Polynomial>, c: Polynomial, z: seq<Polynomial>,
                          cs2: seq<Polynomial>, ct0: seq<Polynomial>)
    requires WellFormed(priv) && RingVector(y) && |y| == priv.pub.p.l && RingElement(c)
  {
    hide Product, InverseTransform, PolyAdd, Sound, RingMatrix;
    && RingVector(z) && RingVector(cs2) && RingVector(ct0) && |z| == priv.pub.p.l && |cs2| == |ct0| == priv.pub.p.k
    && (forall i :: 0 <= i < |z| ==> z[i] == PolyAdd(y[i], Product(c, InverseTransform(priv.s1[i]))))
    && (forall i :: 0 <= i < |cs2| ==> cs2[i] == Product(c, InverseTransform(priv.s2[i])))
    && (forall i :: 0 <= i < |ct0| ==> ct0[i] == Product(c, InverseTransform(priv.t0[i])))
  }

  /** The four conditions under which a response may leave the signer. */
  ghost predicate MayLeave(p: Params, w: seq<Polynomial>, z: seq<Polynomial>, cs2: seq<Polynomial>,
                           ct0: seq<Polynomial>, h: seq<Bits>)
    requires Sound(p) && RingVector(w) && RingVector(z) && RingVector(cs2) && RingVector(ct0) && |w| == |cs2| == |ct0|
  {
    && ShortResponse(z, p)
    && (forall i, j :: 0 <= i < |w| && 0 <= j < 256 ==>
          -(Gamma2Value(p.gamma2) - p.tau * p.eta) < LowBitsOf(Sub(w[i][j], cs2[i][j]), p.gamma2)
          < Gamma2Value(p.gamma2) - p.tau * p.eta)
    && (forall i, j :: 0 <= i < |ct0| && 0 <= j < 256 ==> InfinityNorm(ct0[i][j]) < Gamma2Value(p.gamma2))
    && TotalOnes(h) <= p.omega
  }

  lemma AnswersAre(priv: PrivateKey, y: seq<Polynomial>, c: Polynomial)
    requires WellFormed(priv) && RingVector(y) && |y| == priv.pub.p.l && RingElement(c)
    ensures var k := Transform(c);
            Answers(priv, y, c, VecAdd(y, Scaled(k, priv.s1)), Scaled(k, priv.s2), Scaled(k, priv.t0))
  {
    hide Transform, InverseTransform, Product, PointwiseMul, PolyAdd, Sound, RingMatrix;
    forall i | 0 <= i < |priv.s1|
      ensures Scaled(Transform(c), priv.s1)[i] == Product(c, InverseTransform(priv.s1[i]))
    {
      ScaledInRing(c, priv.s1[i]);
    }
    forall i | 0 <= i < |priv.s2|
      ensures Scaled(Transform(c), priv.s2)[i] == Product(c, InverseTransform(priv.s2[i]))
      ensures Scaled(Transform(c), priv.t0)[i] == Product(c, InverseTransform(priv.t0[i]))
    {
      ScaledInRing(c, priv.s2[i]);
      ScaledInRing(c, priv.t0[i]);
    }
  }

  lemma LowBitsAre(w: seq<Polynomial>, cs2: seq<Polynomial>, bound: int, den: nat)
    requires Gamma2(den) && RingVector(w) && RingVector(cs2) && |w| == |cs2|
    ensures AllLowBitsBelow(VecSub(w, cs2), bound, den) <==>
              forall i, j :: 0 <= i < |w| && 0 <= j < 256 ==> -bound < LowBitsOf(Sub(w[i][j], cs2[i][j]), den) < bound
  {
    hide LowBitsOf, Sub;
    var v := VecSub(w, cs2);
    forall i, j | 0 <= i < |w| && 0 <= j < 256
      ensures v[i][j] == Sub(w[i][j], cs2[i][j])
    {
      assert v[i] == PolySub(w[i], cs2[i]);
    }
    if AllLowBitsBelow(v, bound, den) {
      forall i, j | 0 <= i < |w| && 0 <= j < 256
        ensures -bound < LowBitsOf(Sub(w[i][j], cs2[i][j]), den) < bound
      {
        assert LowBitsBelow(v[i], bound, den);
      }
    }
    if forall i, j :: 0 <= i < |w| && 0 <= j < 256 ==> -bound < LowBitsOf(Sub(w[i][j], cs2[i][j]), den) < bound {
      forall i | 0 <= i < |v|
        ensures LowBitsBelow(v[i], bound, den)
      {
        assert forall j :: 0 <= j < 256 ==> v[i][j] == Sub(w[i][j], cs2[i][j]);
      }
    }
  }

  lemma NormsAre(v: seq<Polynomial>, bound: nat)
    requires RingVector(v)
    ensures AllNormBelow(v, bound) <==> forall i, j :: 0 <= i < |v| && 0 <= j < 256 ==> InfinityNorm(v[i][j]) < bound
  {
    hide InfinityNorm;
    if AllNormBelow(v, bound) {
      forall i, j | 0 <= i < |v| && 0 <= j < 256
        ensures InfinityNorm(v[i][j]) < bound
      {
        assert NormBelow(v[i], bound);
      }
    }
  }

  /** The checks pass exactly when the response may leave, and it is then z = y + c s1 with the hints of w. */
  lemma RespondIff(priv: PrivateKey, y: seq<Polynomial>, w: seq<Polynomial>, ch: seq<byte>, c: Polynomial,
                   z: seq<Polynomial>, cs2: seq<Polynomial>, ct0: seq<Polynomial>, h: seq<Bits>)
    requires WellFormed(priv) && RingElement(c) && RingVector(y) && |y| == priv.pub.p.l
    requires RingVector(w) && |w| == priv.pub.p.k && Answers(priv, y, c, z, cs2, ct0)
    requires |h| == |w| && forall i :: 0 <= i < |w| ==> h[i] == MakeHintSpec(ct0[i], w[i], cs2[i], priv.pub.p.gamma2)
    ensures var r := Respond(priv, y, w, ch, Transform(c));
            && !r.Unsampled? && (r.Success? <==> MayLeave(priv.pub.p, w, z, cs2, ct0, h))
            && (r.Success? ==> r == Success(ch, z, h))
  {
    hide Transform, InverseTransform, Product, PolyAdd, PolySub, Scaled, MakeHintSpec, TotalOnes, LowBitsOf;
    hide InfinityNorm;
    hide ResponseBound, Sound, RingMatrix, AllNormBelow, AllLowBitsBelow, ShortResponse;
    var p := priv.pub.p;
    SoundBounds(p);
    BoundIs(p);
    AnswersAre(priv, y, c);
    var k := Transform(c);
    assert z == VecAdd(y, Scaled(k, priv.s1)) && cs2 == Scaled(k, priv.s2) && ct0 == Scaled(k, priv.t0);
    assert h == MakeHints(ct0, w, cs2, p.gamma2);
    ShortIs(z, p);
    LowBitsAre(w, cs2, Gamma2Value(p.gamma2) - p.tau * p.eta, p.gamma2);
    NormsAre(ct0, Gamma2Value(p.gamma2));
  }

  lemma CounterIs(v: seq<byte>, kappa: nat)
    ensures IsCounter(v, kappa) <==> v == Counter(kappa)
  {
    var c := Counter(kappa);
    var b0: nat, b1: nat := c[0], c[1];
    var q := kappa / 256;
    assert kappa == q * 256 + b0 && q == (q / 256) * 256 + b1;
    UniqueQuotient(kappa, q / 256, b0 + 256 * b1, 0x1_0000);
    if |v| == 2 {
      var a0: nat, a1: nat := v[0], v[1];
      if a0 + 256 * a1 == b0 + 256 * b1 {
        assert v == c;
      }
    }
  }

  lemma MaskRowIs(sh: Shake, bits: nat, nonce: seq<byte>, n: nat, f: Polynomial)
    requires SignatureWidth(bits)
    ensures MaskRow(sh, bits, nonce, n, f) <==> f == MaskPoly(sh, bits, nonce, n)
  {
    hide Unpack, IsCounter, Counter, SignatureWidth;
    var input := nonce + Counter(n);
    var first := Output(Stream256(sh, input), 0, 32 * bits);
    CounterIs(Counter(n), n);
    assert forall i :: 0 <= i < |first| ==> first[i] == sh.s256(input, i);
    if MaskRow(sh, bits, nonce, n, f) {
      var v: seq<byte>, out: seq<byte> :|
        && IsCounter(v, n) && |out| == 32 * bits && f == Unpack(bits, out)
        && forall i :: 0 <= i < |out| ==> out[i] == sh.s256(nonce + v, i);
      CounterIs(v, n);
      assert out == first;
    }
  }

  lemma MaskIs(sh: Shake, p: Params, nonce: seq<byte>, kappa: nat, y: seq<Polynomial>)
    requires SignatureWidth(p.gamma1 + 1) && Masks(sh, p, nonce, kappa, y)
    ensures y == Mask(sh, p.gamma1 + 1, nonce, kappa, p.l)
  {
    hide MaskRow, MaskPoly, RingVector, SignatureWidth;
    forall r | 0 <= r < p.l
      ensures y[r] == MaskPoly(sh, p.gamma1 + 1, nonce, kappa + r)
    {
      MaskRowIs(sh, p.gamma1 + 1, nonce, kappa + r, y[r]);
    }
  }

  /**
   One attempt, in the ring and in bytes: with the mask y, the commitment w = A y, the hash of mu and
   its high parts, and the challenge c, it succeeds exactly when the response may leave.
   */
  lemma AttemptIff(sh: Shake, priv: PrivateKey, mu: seq<byte>, nonce: seq<byte>, kappa: nat, limit: nat,
                   y: seq<Polynomial>, w: seq<Polynomial>, w1: seq<Bits>, ch: seq<byte>, c: Polynomial,
                   z: seq<Polynomial>, cs2: seq<Polynomial>, ct0: seq<Polynomial>, h: seq<Bits>)
    requires WellFormed(priv) && SignatureWidth(priv.pub.p.gamma1 + 1) && Masks(sh, priv.pub.p, nonce, kappa, y)
    requires Commits(sh, priv, mu, limit, y, w, w1, ch, c)
    requires Answers(priv, y, c, z, cs2, ct0)
    requires |h| == |w| && forall i :: 0 <= i < |w| ==> h[i] == MakeHintSpec(ct0[i], w[i], cs2[i], priv.pub.p.gamma2)
    ensures var r := AttemptAt(sh, priv, mu, nonce, kappa, limit);
            && !r.Unsampled? && (r.Success? <==> MayLeave(priv.pub.p, w, z, cs2, ct0, h))
            && (r.Success? ==> r == Success(ch, z, h))
  {
    hide Transform, RowSum, HighBitsSpec, BallOf, Respond, Answers, MayLeave, MakeHintSpec, Sound, Commitment, Hashes;
    hide ChallengeHash, Masks, Mask;
    var p := priv.pub.p;
    SoundBounds(p);
    MaskIs(sh, p, nonce, kappa, y);
    forall i | 0 <= i < p.k
      ensures w[i] == Commitment(priv.pub.a, y)[i]
    {
      CommitmentInRing(priv.pub.a, y, i);
    }
    assert w == Commitment(priv.pub.a, y);
    assert w1 == HighBitsAll(w, p.gamma2);
    HashIs(sh, mu, w1, p, ch);
    assert ch[..p.lambda / 4] == ch;
    RespondIff(priv, y, w, ch, c, z, cs2, ct0, h);
  }

  /** The counter at which attempt n starts: every attempt uses l counters. */
  function CounterAt(kappa: nat, l: nat, n: nat): (c: nat)
  {
    kappa + n * l
  }

  lemma CounterShift(kappa: nat, l: nat, n: nat)
    ensures CounterAt(kappa + l, l, n) == CounterAt(kappa, l, n + 1) && CounterAt(kappa, l, 0) == kappa
  {
  }

  /** Attempt n is the first one that is not rejected, and it succeeds. */
  ghost predicate FirstSuccess(sh: Shake, priv: PrivateKey, mu: seq<byte>, nonce: seq<byte>, kappa: nat, limit: nat,
                               n: nat)
    requires WellFormed(priv)
  {
    && (forall m: nat :: m < n ==> AttemptAt(sh, priv, mu, nonce, CounterAt(kappa, priv.pub.p.l, m), limit).Rejected?)
    && AttemptAt(sh, priv, mu, nonce, CounterAt(kappa, priv.pub.p.l, n), limit).Success?
  }

  lemma FirstSuccessShift(sh: Shake, priv: PrivateKey, mu: seq<byte>, nonce: seq<byte>, kappa: nat, limit: nat, n: nat)
    requires WellFormed(priv) && AttemptAt(sh, priv, mu, nonce, kappa, limit).Rejected?
    ensures FirstSuccess(sh, priv, mu, nonce, kappa + priv.pub.p.l, limit, n)
            <==> FirstSuccess(sh, priv, mu, nonce, kappa, limit, n + 1)
  {
    hide AttemptAt, WellFormed, CounterAt;
    var l := priv.pub.p.l;
    var next := kappa + l;
    CounterShift(kappa, l, n);
    if FirstSuccess(sh, priv, mu, nonce, next, limit, n) {
      forall m: nat | m < n + 1
        ensures AttemptAt(sh, priv, mu, nonce, CounterAt(kappa, l, m), limit).Rejected?
      {
        if m > 0 {
          CounterShift(kappa, l, m - 1);
        }
      }
    }
    if FirstSuccess(sh, priv, mu, nonce, kappa, limit, n + 1) {
      forall m: nat | m < n
        ensures AttemptAt(sh, priv, mu, nonce, CounterAt(next, l, m), limit).Rejected?
      {
        CounterShift(kappa, l, m);
      }
    }
  }

  /** sig encodes the result of attempt n, the first that is not rejected. */
  ghost predicate SignedBy(sh: Shake, priv: PrivateKey, mu: seq<byte>, nonce: seq<byte>, kappa: nat, limit: nat,
                           n: nat, sig: seq<byte>)
    requires WellFormed(priv)
  {
    hide AttemptAt, SigBytes, Encodes, WellFormed;
    && FirstSuccess(sh, priv, mu, nonce, kappa, limit, n)
    && IsEncoded(AttemptAt(sh, priv, mu, nonce, CounterAt(kappa, priv.pub.p.l, n), limit), priv.pub.p, sig)
  }

  ghost predicate IsEncoded(a: Attempt, p: Params, sig: seq<byte>)
  {
    a.Success? && Encodes(a.ch, a.z, a.h, p) && sig == SigBytes(a.ch, a.z, a.h, p)
  }

  lemma SignedShift(sh: Shake, priv: PrivateKey, mu: seq<byte>, nonce: seq<byte>, kappa: nat, limit: nat, n: nat,
                    sig: seq<byte>)
    requires WellFormed(priv) && AttemptAt(sh, priv, mu, nonce, kappa, limit).Rejected?
    ensures SignedBy(sh, priv, mu, nonce, kappa + priv.pub.p.l, limit, n, sig)
            <==> SignedBy(sh, priv, mu, nonce, kappa, limit, n + 1, sig)
  {
    hide AttemptAt, SigBytes, Encodes, WellFormed, FirstSuccess, IsEncoded, CounterAt;
    FirstSuccessShift(sh, priv, mu, nonce, kappa, limit, n);
    CounterShift(kappa, priv.pub.p.l, n);
  }

  /** The loop returns the encoding of the first successful attempt; attempt n starts at counter kappa + n l. */
  lemma {:induction false} SignIff(sh: Shake, priv: PrivateKey, mu: seq<byte>, nonce: seq<byte>, kappa: nat,
                                   attempts: nat, limit: nat, sig: seq<byte>)
    requires WellFormed(priv)
    ensures SignFrom(sh, priv, mu, nonce, kappa, attempts, limit) == Signature(sig) <==>
              exists n: nat :: n < attempts && SignedBy(sh, priv, mu, nonce, kappa, limit, n, sig)
    decreases attempts
  {
    hide AttemptAt, SigBytes, Encodes, WellFormed, SignedBy;
    if attempts > 0 {
      var a := AttemptAt(sh, priv, mu, nonce, kappa, limit);
      var next := kappa + priv.pub.p.l;
      AttemptEncodes(sh, priv, mu, nonce, kappa, limit);
      FirstAttempt(sh, priv, mu, nonce, kappa, limit, sig);
      if a.Rejected? {
        SignIff(sh, priv, mu, nonce, next, attempts - 1, limit, sig);
        if exists n: nat :: n < attempts - 1 && SignedBy(sh, priv, mu, nonce, next, limit, n, sig) {
          var n: nat :| n < attempts - 1 && SignedBy(sh, priv, mu, nonce, next, limit, n, sig);
          SignedShift(sh, priv, mu, nonce, kappa, limit, n, sig);
        }
        if exists n: nat :: n < attempts && SignedBy(sh, priv, mu, nonce, kappa, limit, n, sig) {
          var n: nat :| n < attempts && SignedBy(sh, priv, mu, nonce, kappa, limit, n, sig);
          SignedShift(sh, priv, mu, nonce, kappa, limit, n - 1, sig);
        }
      }
    }
  }

  lemma FirstAttempt(sh: Shake, priv: PrivateKey, mu: seq<byte>, nonce: seq<byte>, kappa: nat, limit: nat,
                     sig: seq<byte>)
    requires WellFormed(priv)
    ensures var a := AttemptAt(sh, priv, mu, nonce, kappa, limit);
            && (SignedBy(sh, priv, mu, nonce, kappa, limit, 0, sig) <==> IsEncoded(a, priv.pub.p, sig))
            && (!a.Rejected? ==> forall n: nat :: n > 0 ==> !SignedBy(sh, priv, mu, nonce, kappa, limit, n, sig))
  {
    hide AttemptAt, SigBytes, Encodes, WellFormed, CounterAt;
    CounterShift(kappa, priv.pub.p.l, 0);
  }

  /** Different messages or commitments are hashed as different strings. */
  lemma ChallengeInputs(mu: seq<byte>, w1: seq<Bits>, mu': seq<byte>, w1': seq<Bits>, den: nat)
    requires Gamma2(den) && Vector(w1) && Vector(w1') && |w1| == |w1'| && |mu| == |mu'|
    requires AllFit(CommitmentBits(den), w1) && AllFit(CommitmentBits(den), w1')
    requires mu + PackAll(CommitmentBits(den), w1) == mu' + PackAll(CommitmentBits(den), w1')
    ensures mu == mu' && w1 == w1'
  {
    hide PackAll, AllFit;
    var a, b := PackAll(CommitmentBits(den), w1), PackAll(CommitmentBits(den), w1');
    assert mu == (mu + a)[..|mu|] && mu' == (mu' + b)[..|mu|];
    assert a == (mu + a)[|mu|..] && b == (mu' + b)[|mu|..];
    W1Injective(w1, w1', den);
  }

  /** Different counters below 2^16 give the masks different inputs. */
  lemma MaskInputs(nonce: seq<byte>, kappa: nat, kappa': nat)
    requires kappa < 0x1_0000 && kappa' < 0x1_0000 && nonce + Counter(kappa) == nonce + Counter(kappa')
    ensures kappa == kappa'
  {
    hide Counter;
    var n := |nonce|;
    assert (nonce + Counter(kappa))[n..] == Counter(kappa) && (nonce + Counter(kappa'))[n..] == Counter(kappa');
    CounterIs(Counter(kappa), kappa);
    CounterIs(Counter(kappa'), kappa');
  }

  /** No two rows of the masks of two attempts hash the same string, as long as the counters stay below 2^16. */
  lemma MasksDistinct(nonce: seq<byte>, l: nat, n: nat, r: nat, n': nat, r': nat)
    requires r < l && r' < l && (n, r) != (n', r')
    requires CounterAt(0, l, n) + r < 0x1_0000 && CounterAt(0, l, n') + r' < 0x1_0000
    ensures nonce + Counter(CounterAt(0, l, n) + r) != nonce + Counter(CounterAt(0, l, n') + r')
  {
    hide Counter;
    if nonce + Counter(CounterAt(0, l, n) + r) == nonce + Counter(CounterAt(0, l, n') + r') {
      MaskInputs(nonce, CounterAt(0, l, n) + r, CounterAt(0, l, n') + r');
      UniqueQuotient(CounterAt(0, l, n) + r, n, r, l);
      UniqueQuotient(CounterAt(0, l, n') + r', n', r', l);
    }
  }

  /** The nonce: 64 bytes of the hash of the secret key seed, the randomness and mu. */
  function Nonce(sh: Shake, priv: PrivateKey, mu: seq<byte>, random: seq<byte>): (nonce: seq<byte>)
  {
    Output(Stream256(sh, priv.k + random + mu), 0, 64)
  }

  /** Its bytes; a different randomness or message hash of the same length is hashed as a different string. */
  lemma NonceReads(sh: Shake, priv: PrivateKey, mu: seq<byte>, random: seq<byte>, mu': seq<byte>, random': seq<byte>)
    requires |random| == |random'|
    ensures |Nonce(sh, priv, mu, random)| == 64
    ensures forall n :: 0 <= n < 64 ==> Nonce(sh, priv, mu, random)[n] == sh.s256(priv.k + random + mu, n)
    ensures priv.k + random + mu == priv.k + random' + mu' ==> random == random' && mu == mu'
  {
    var x, y := priv.k + random + mu, priv.k + random' + mu';
    if x == y {
      var a, b := |priv.k|, |priv.k| + |random|;
      assert x[a..b] == random && y[a..b] == random';
      assert x[b..] == mu && y[b..] == mu';
    }
  }

  /**
   Every signature that signInternal returns is accepted by verifyInternal under
   the matching public key, for every hash function, message hash, randomness
   and number of rejected attempts. With a shorter sampling limit than the
   signer's the verifier may fail to draw the challenge; it never rejects.
   */
  lemma {:induction false} SignedVerifies(sh: Shake, priv: PrivateKey, mu: seq<byte>, nonce: seq<byte>, kappa: nat,
                                          attempts: nat, limit: nat, limit': nat)
    requires KeyEquation(priv)
    ensures var r := SignFrom(sh, priv, mu, nonce, kappa, attempts, limit);
            r.Signature? ==>
              var v := VerifyAt(sh, priv.pub, mu, r.sig, limit');
              (v == Valid || v == VerifyUnsampled) && (limit <= limit' ==> v == Valid)
    decreases attempts
  {
    hide KeyEquation, AttemptAt, VerifyAt, SigBytes, Encodes, WellFormed;
    EquationShape(priv);
    if attempts > 0 {
      var a := AttemptAt(sh, priv, mu, nonce, kappa, limit);
      if a.Success? {
        AttemptVerifies(sh, priv, mu, nonce, kappa, limit, limit', a);
      } else if a.Rejected? {
        SignedVerifies(sh, priv, mu, nonce, kappa + priv.pub.p.l, attempts - 1, limit, limit');
      }
    }
  }

  //////////////////////////////////////////////////////////////////////////////
  // The loops of signInternal and verifyInternal
  //////////////////////////////////////////////////////////////////////////////

  /** The loop that expands the mask. */
  method ExpandMask(sh: Shake, bits: nat, nonce: seq<byte>, kappa0: nat, l: nat)
    returns (y: seq<Polynomial>, kappa: nat)
    requires SignatureWidth(bits)
    ensures y == Mask(sh, bits, nonce, kappa0, l) && kappa == kappa0 + l
  {
    hide Unpack, Mask, Output;
    y, kappa := [], kappa0;
    for r := 0 to l
      invariant |y| == r && kappa == kappa0 + r
      invariant forall j :: 0 <= j < r ==> y[j] == MaskPoly(sh, bits, nonce, kappa0 + j)
    {
      var f := BitUnpack(Output(Stream256(sh, nonce + Counter(kappa)), 0, 32 * bits), bits);
      y := y + [f];
      kappa := kappa + 1;
    }
    assert forall j :: 0 <= j < l ==> y[j] == Mask(sh, bits, nonce, kappa0, l)[j];
  }

  /** The loop that hashes the encoded commitment. */
  method HashCommitment(sh: Shake, mu: seq<byte>, w1: seq<Bits>, p: Params) returns (ch: seq<byte>)
    requires Gamma2(p.gamma2) && Vector(w1)
    ensures ch == ChallengeHash(sh, mu, w1, p)
  {
    hide PackPoly, Output;
    var absorbed := mu;
    for i := 0 to |w1|
      invariant absorbed == mu + PackAll(CommitmentBits(p.gamma2), w1[..i])
    {
      absorbed := W1Encode(absorbed, w1[i], p.gamma2);
      assert w1[..i + 1][..i] == w1[..i];
    }
    assert w1[..|w1|] == w1;
    ch := Output(Stream256(sh, absorbed), 0, p.lambda / 4);
  }

  method HighBitsVector(w: seq<Polynomial>, den: nat) returns (w1: seq<Bits>)
    requires Gamma2(den) && RingVector(w)
    ensures w1 == HighBitsAll(w, den)
  {
    hide HighBitsSpec, HighBitsAll, Gamma2;
    w1 := [];
    for i := 0 to |w|
      invariant |w1| == i && forall j :: 0 <= j < i ==> w1[j] == HighBitsSpec(w[j], den)
    {
      var b := HighBits(w[i], den);
      w1 := w1 + [b];
    }
  }

  method UseHintVector(r: seq<Polynomial>, h: seq<Bits>, den: nat) returns (w1: seq<Bits>)
    requires Gamma2(den) && |r| == |h| && RingVector(r) && AllBinary(h)
    ensures w1 == UseHints(r, h, den)
  {
    hide UseHintSpec, UseHints, Gamma2;
    w1 := [];
    for i := 0 to |r|
      invariant |w1| == i && forall j :: 0 <= j < i ==> w1[j] == UseHintSpec(r[j], h[j], den)
    {
      var b := UseHint(r[i], h[i], den);
      w1 := w1 + [b];
    }
  }

  /** The loop that makes the hints and counts their ones. */
  method MakeHintVector(ct0: seq<Polynomial>, w: seq<Polynomial>, cs2: seq<Polynomial>, den: nat)
    returns (h: seq<Bits>, count1s: nat)
    requires Gamma2(den) && |ct0| == |w| == |cs2| && RingVector(ct0) && RingVector(w) && RingVector(cs2)
    ensures h == MakeHints(ct0, w, cs2, den) && count1s == TotalOnes(h)
  {
    hide MakeHintSpec, MakeHints, Gamma2, Ones;
    h, count1s := [], 0;
    for i := 0 to |w|
      invariant |h| == i && forall j :: 0 <= j < i ==> h[j] == MakeHintSpec(ct0[j], w[j], cs2[j], den)
      invariant count1s == TotalOnes(h)
    {
      var b, count := MakeHint(ct0[i], w[i], cs2[i], den);
      assert (h + [b])[..i] == h;
      h := h + [b];
      count1s := count1s + count;
    }
  }

  /** z = y + cs1, given up as soon as an element exceeds the bound. */
  method AddBounded(y: seq<Polynomial>, cs1: seq<Polynomial>, bound: nat) returns (ok: bool, z: seq<Polynomial>)
    requires |y| == |cs1| && RingVector(y) && RingVector(cs1)
    ensures ok <==> AllNormBelow(VecAdd(y, cs1), bound)
    ensures ok ==> z == VecAdd(y, cs1)
  {
    hide PolyAdd, NormBelow, VecAdd;
    z := [];
    for i := 0 to |y|
      invariant |z| == i && forall j :: 0 <= j < i ==> z[j] == PolyAdd(y[j], cs1[j]) && NormBelow(z[j], bound)
    {
      z := z + [PolyAdd(y[i], cs1[i])];
      var exceeds := CoefficientsExceedBound(z[i], bound);
      if exceeds {
        assert VecAdd(y, cs1)[i] == z[i];
        return false, z;
      }
    }
    return true, z;
  }

  /** The r0 check: the low bits of w - cs2. */
  method LowBitsCheck(w: seq<Polynomial>, cs2: seq<Polynomial>, bound: nat, den: nat) returns (ok: bool)
    requires Gamma2(den) && |w| == |cs2| && RingVector(w) && RingVector(cs2)
    ensures ok <==> AllLowBitsBelow(VecSub(w, cs2), bound, den)
  {
    hide PolySub, LowBitsBelow, VecSub, Gamma2;
    for i := 0 to |w|
      invariant forall j :: 0 <= j < i ==> LowBitsBelow(VecSub(w, cs2)[j], bound, den)
    {
      var exceeds := LowBitsExceedBound(PolySub(w[i], cs2[i]), bound, den);
      assert VecSub(w, cs2)[i] == PolySub(w[i], cs2[i]);
      if exceeds {
        return false;
      }
    }
    return true;
  }

  /** The bound checks on ct0 in sign and on z in verify. */
  method NormCheck(v: seq<Polynomial>, bound: nat) returns (ok: bool)
    ensures ok <==> AllNormBelow(v, bound)
  {
    hide NormBelow;
    for i := 0 to |v|
      invariant forall j :: 0 <= j < i ==> NormBelow(v[j], bound)
    {
      var exceeds := CoefficientsExceedBound(v[i], bound);
      if exceeds {
        return false;
      }
    }
    return true;
  }

  /** The part of a turn after the challenge is drawn. */
  method RespondTo(priv: PrivateKey, y: seq<Polynomial>, w: seq<Polynomial>, ch: seq<byte>, c: Polynomial)
    returns (r: Attempt)
    requires WellFormed(priv) && RingElement(c)
    requires RingVector(y) && |y| == priv.pub.p.l && RingVector(w) && |w| == priv.pub.p.k
    ensures r == Respond(priv, y, w, ch, c)
  {
    hide VecAdd, VecSub, Scaled, MakeHints, AllNormBelow, AllLowBitsBelow, TotalOnes, ResponseBound, Beta, Gamma2Value;
    hide Sound, RingVector, RingMatrix, Gamma2;
    var p := priv.pub.p;
    SoundBounds(p);
    var cs1 := ScaledVector(c, priv.s1);
    var cs2 := ScaledVector(c, priv.s2);
    var okZ, z := AddBounded(y, cs1, ResponseBound(p));
    if !okZ {
      return Rejected(ReasonZ);
    }
    var okR0 := LowBitsCheck(w, cs2, Gamma2Value(p.gamma2) - Beta(p), p.gamma2);
    if !okR0 {
      return Rejected(ReasonR0);
    }
    var ct0 := ScaledVector(c, priv.t0);
    var okCt0 := NormCheck(ct0, Gamma2Value(p.gamma2));
    if !okCt0 {
      return Rejected(ReasonCt0);
    }
    var h, count1s := MakeHintVector(ct0, w, cs2, p.gamma2);
    if count1s > p.omega {
      return Rejected(ReasonHints);
    }
    return Success(ch, z, h);
  }

  /** One turn of the rejection loop. */
  method TryOnce(sh: Shake, priv: PrivateKey, mu: seq<byte>, nonce: seq<byte>, kappa0: nat, limit: nat)
    returns (r: Attempt, kappa: nat)
    requires WellFormed(priv)
    ensures r == AttemptAt(sh, priv, mu, nonce, kappa0, limit) && kappa == kappa0 + priv.pub.p.l
  {
    hide Transform, Commitment, BallOf, HighBitsAll, Mask, ChallengeHash, Respond, RingVector, TransformAll;
    hide InverseAll, MatrixMul, Sound, Gamma2;
    var p := priv.pub.p;
    SoundBounds(p);
    var y;
    y, kappa := ExpandMask(sh, p.gamma1 + 1, nonce, kappa0, p.l);
    var w := ComputeCommitment(priv.pub.a, y);
    var w1 := HighBitsVector(w, p.gamma2);
    var ch := HashCommitment(sh, mu, w1, p);
    var ball := SampleInBall(Stream256(sh, ch), p.tau, limit);
    if ball.Exhausted? {
      return Unsampled, kappa;
    }
    var c := Ntt256(ball.f);
    r := RespondTo(priv, y, w, ch, c);
  }

  method ComputeCommitment(a: seq<seq<Polynomial>>, y: seq<Polynomial>) returns (w: seq<Polynomial>)
    requires RingVector(y) && RingMatrix(a, |a|, |y|)
    ensures w == Commitment(a, y)
  {
    hide TransformAll, InverseAll, MatrixMul;
    var yHat := TransformVector(y);
    w := MatrixProduct(a, yHat);
  }

  /**
   signInternal. Its signatures are accepted by verifyInternal (SignedVerifies);
   the bounds on turns and on sampled bytes are not in the program.
   */
  method SignInternal(sh: Shake, priv: PrivateKey, mu: seq<byte>, random: seq<byte>, attempts: nat, limit: nat)
    returns (r: SignResult)
    requires WellFormed(priv)
    ensures r == SignFrom(sh, priv, mu, Nonce(sh, priv, mu, random), 0, attempts, limit)
  {
    hide AttemptAt, SigBytes, Encodes, WellFormed, Nonce;
    var nonce := Nonce(sh, priv, mu, random);
    var kappa := 0;
    for turn := 0 to attempts
      invariant SignFrom(sh, priv, mu, nonce, 0, attempts, limit)
                == SignFrom(sh, priv, mu, nonce, kappa, attempts - turn, limit)
    {
      var a;
      AttemptEncodes(sh, priv, mu, nonce, kappa, limit);
      a, kappa := TryOnce(sh, priv, mu, nonce, kappa, limit);
      if a.Unsampled? {
        return NotSigned;
      }
      if a.Success? {
        var sig := SigEncode(a.ch, a.z, a.h, priv.pub.p);
        return Signature(sig);
      }
    }
    return NotSigned;
  }

  /** The loop of verifyInternal that computes w'. */
  method ComputeApprox(a: seq<seq<Polynomial>>, t1: seq<Polynomial>, z: seq<Polynomial>, c: Polynomial)
    returns (w: seq<Polynomial>)
    requires RingVector(z) && RingVector(t1) && RingMatrix(a, |t1|, |z|) && RingElement(c)
    ensures w == Approx(a, t1, z, c)
  {
    hide Approx, ApproxRow, InverseTransform, MulAdd, PolySub, PointwiseMul, Zero, TransformAll, RingVector, RingMatrix;
    var zHat := TransformVector(z);
    w := [];
    for i := 0 to |t1|
      invariant |w| == i && forall j :: 0 <= j < i ==> w[j] == Approx(a, t1, z, c)[j]
    {
      ShapesAt(a, t1, |z|, i);
      var sum := RowProduct(Zero(256), a[i], zHat);
      var f := InverseNtt256(PolySub(sum, PointwiseMul(c, t1[i])));
      ApproxAt(a, t1, z, c, i);
      ApproxRowIs(a[i], t1[i], zHat, c);
      w := w + [f];
    }
  }

  lemma ShapesAt(a: seq<seq<Polynomial>>, t1: seq<Polynomial>, l: nat, i: nat)
    requires RingMatrix(a, |t1|, l) && RingVector(t1) && i < |t1|
    ensures |a| == |t1| && |a[i]| == l && RingVector(a[i]) && RingElement(t1[i]) && |t1[i]| == 256
            && RingElement(Zero(256))
  {
  }

  lemma ApproxRowIs(row: seq<Polynomial>, t1: Polynomial, zHat: seq<Polynomial>, c: Polynomial)
    requires RingVector(row) && RingVector(zHat) && |row| == |zHat| && RingElement(t1) && RingElement(c)
    ensures ApproxRow(row, t1, zHat, c) == InverseTransform(PolySub(MulAdd(Zero(256), row, zHat), PointwiseMul(c, t1)))
  {
    hide InverseTransform, MulAdd, PolySub, PointwiseMul, Zero;
  }

  /** verifyInternal. */
  method VerifyInternal(sh: Shake, pub: PublicKey, mu: seq<byte>, sig: seq<byte>, limit: nat) returns (v: Verdict)
    requires WellFormedPub(pub)
    ensures v == VerifyAt(sh, pub, mu, sig, limit)
    ensures v == Valid <==> ValidFor(sh, pub, mu, sig, limit)
  {
    hide Transform, BallOf, UseHints, Approx, ChallengeHash, DecodeSig, RingVector, AllNormBelow, ResponseBound;
    hide Sound, Gamma2, AllBinary, ValidFor;
    VerifyIff(sh, pub, mu, sig, limit);
    var p := pub.p;
    SoundBounds(p);
    var d := SigDecode(sig, p);
    if d.SigErr? {
      return BadEncoding(d.error);
    }
    var ball := SampleInBall(Stream256(sh, d.ch), p.tau, limit);
    if ball.Exhausted? {
      return VerifyUnsampled;
    }
    var c := Ntt256(ball.f);
    var w := ComputeApprox(pub.a, pub.t1, d.z, c);
    var w1 := UseHintVector(w, d.h, p.gamma2);
    var computed := HashCommitment(sh, mu, w1, p);
    var inBounds := NormCheck(d.z, ResponseBound(p));
    if !inBounds {
      return BadBounds;
    }
    if d.ch != computed {
      return BadChallenge;
    }
    return Valid;
  }

  /**
   End to end: a key made by newPrivateKey, its encoded public key decoded by
   newPublicKey elsewhere, and any signature of signInternal: verifyInternal
   accepts it.
   */
  lemma SignatureAccepted(sh: Shake, limit0: nat, priv: PrivateKey, t1: seq<seq<nat>>, limit1: nat, pub: PublicKey,
                          mu: seq<byte>, random: seq<byte>, attempts: nat, limit: nat, limit': nat)
    requires IsPrivateKey(sh, limit0, priv, t1)
    requires IsPublicKey(sh, limit1, pub) && pub.raw == priv.pub.raw && pub.p == priv.pub.p
    ensures WellFormed(priv) && WellFormedPub(pub)
    ensures var r := SignFrom(sh, priv, mu, Nonce(sh, priv, mu, random), 0, attempts, limit);
            r.Signature? ==>
              var v := VerifyAt(sh, pub, mu, r.sig, limit');
              (v == Valid || v == VerifyUnsampled) && (limit <= limit' ==> v == Valid)
  {
    hide IsPrivateKey, IsPublicKey, KeyEquation, SignFrom, VerifyAt, Nonce;
    PrivateKeyEquation(sh, limit0, priv, t1);
    EquationShape(priv);
    MatchingPublicKey(sh, limit0, priv, t1);
    PublicKeyUnique(sh, limit1, limit0, pub, priv.pub);
    SignedVerifies(sh, priv, mu, Nonce(sh, priv, mu, random), 0, attempts, limit, limit');
  }
}
