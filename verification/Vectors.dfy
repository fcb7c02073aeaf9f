/**
 Vectors of ring elements: the matrix product of newPrivateKey, sign and verify
 in the transformed domain, and the identity between the verifier's and the
 signer's commitments.
 */
module Vectors {
  import opened Field
  import opened FieldRing
  import opened Poly
  import opened NttSpec
  import opened NttCode

  //////////////////////////////////////////////////////////////////////////////
  // Coordinate-wise laws
  //////////////////////////////////////////////////////////////////////////////

  lemma PolyAddAssociates(f: Polynomial, g: Polynomial, h: Polynomial)
    requires |f| == |g| == |h|
    ensures PolyAdd(PolyAdd(f, g), h) == PolyAdd(f, PolyAdd(g, h))
  {
    hide *;
    forall i | 0 <= i < |f|
      ensures Add(Add(f[i], g[i]), h[i]) == Add(f[i], Add(g[i], h[i]))
    {
      AddAssociates(f[i], g[i], h[i]);
    }
  }

  lemma PolyAddSwap(f: Polynomial, g: Polynomial, h: Polynomial, e: Polynomial)
    requires |f| == |g| == |h| == |e|
    ensures PolyAdd(PolyAdd(f, g), PolyAdd(h, e)) == PolyAdd(PolyAdd(f, h), PolyAdd(g, e))
  {
    hide *;
    forall i | 0 <= i < |f|
      ensures Add(Add(f[i], g[i]), Add(h[i], e[i])) == Add(Add(f[i], h[i]), Add(g[i], e[i]))
    {
      AddSwap(f[i], g[i], h[i], e[i]);
    }
  }

  lemma PolyAddZero(f: Polynomial)
    ensures PolyAdd(f, Zero(|f|)) == f && PolyAdd(Zero(|f|), f) == f
  {
    hide *;
    forall i | 0 <= i < |f|
      ensures Add(f[i], 0) == f[i] && Add(0, f[i]) == f[i]
    {
      AddZero(f[i]);
      AddCommutes(f[i], 0);
    }
  }

  lemma PointwiseDistributes(c: Polynomial, f: Polynomial, g: Polynomial)
    requires |c| == |f| == |g|
    ensures PointwiseMul(c, PolyAdd(f, g)) == PolyAdd(PointwiseMul(c, f), PointwiseMul(c, g))
  {
    hide *;
    forall i | 0 <= i < |f|
      ensures Mul(c[i], Add(f[i], g[i])) == Add(Mul(c[i], f[i]), Mul(c[i], g[i]))
    {
      MulDistributes(c[i], f[i], g[i]);
    }
  }

  lemma PointwiseSwap(a: Polynomial, c: Polynomial, f: Polynomial)
    requires |a| == |c| == |f|
    ensures PointwiseMul(a, PointwiseMul(c, f)) == PointwiseMul(c, PointwiseMul(a, f))
  {
    hide *;
    forall i | 0 <= i < |f|
      ensures Mul(a[i], Mul(c[i], f[i])) == Mul(c[i], Mul(a[i], f[i]))
    {
      MulAssociates(a[i], c[i], f[i]);
      MulAssociates(c[i], a[i], f[i]);
      MulCommutes(a[i], c[i]);
    }
  }

  lemma PointwiseZero(c: Polynomial)
    ensures PointwiseMul(c, Zero(|c|)) == Zero(|c|)
  {
    hide *;
    forall i | 0 <= i < |c|
      ensures Mul(c[i], 0) == 0
    {
      MulZero(c[i]);
    }
  }

  //////////////////////////////////////////////////////////////////////////////
  // Rows
  //////////////////////////////////////////////////////////////////////////////

  /** start + row[0] o v[0] + ... + row[n-1] o v[n-1], in the transformed domain. */
  function MulAdd(start: Polynomial, row: seq<Polynomial>, v: seq<Polynomial>): (r: Polynomial)
    requires RingElement(start) && RingVector(row) && RingVector(v) && |row| == |v|
    ensures RingElement(r)
  {
    if row == [] then start
    else
      var n := |row| - 1;
      PolyAdd(MulAdd(start, row[..n], v[..n]), PointwiseMul(row[n], v[n]))
  }

  function VecAdd(u: seq<Polynomial>, v: seq<Polynomial>): (r: seq<Polynomial>)
    requires |u| == |v| && RingVector(u) && RingVector(v)
    ensures |r| == |u| && RingVector(r)
    ensures forall i :: 0 <= i < |u| ==> r[i] == PolyAdd(u[i], v[i])
  {
    seq(|u|, i requires 0 <= i < |u| => PolyAdd(u[i], v[i]))
  }

  function VecMul(c: Polynomial, v: seq<Polynomial>): (r: seq<Polynomial>)
    requires RingElement(c) && RingVector(v)
    ensures |r| == |v| && RingVector(r)
    ensures forall i :: 0 <= i < |v| ==> r[i] == PointwiseMul(c, v[i])
  {
    seq(|v|, i requires 0 <= i < |v| => PointwiseMul(c, v[i]))
  }

  lemma MulAddUnfold(start: Polynomial, row: seq<Polynomial>, v: seq<Polynomial>)
    requires RingElement(start) && RingVector(row) && RingVector(v) && |row| == |v|
    ensures row == [] ==> MulAdd(start, row, v) == start
    ensures row != [] ==>
              var n := |row| - 1;
              RingVector(row[..n]) && RingVector(v[..n]) && RingElement(row[n]) && RingElement(v[n])
              && MulAdd(start, row, v) == PolyAdd(MulAdd(start, row[..n], v[..n]), PointwiseMul(row[n], v[n]))
  {
    hide PolyAdd, PointwiseMul;
  }

  lemma {:induction false} MulAddStart(start: Polynomial, row: seq<Polynomial>, v: seq<Polynomial>)
    requires RingElement(start) && RingVector(row) && RingVector(v) && |row| == |v|
    ensures MulAdd(start, row, v) == PolyAdd(start, MulAdd(Zero(256), row, v))
    decreases |row|
  {
    hide MulAdd, RingVector, PolyAdd, PointwiseMul, Zero;
    MulAddUnfold(start, row, v);
    MulAddUnfold(Zero(256), row, v);
    if row == [] {
      PolyAddZero(start);
    } else {
      var n := |row| - 1;
      MulAddStart(start, row[..n], v[..n]);
      PolyAddAssociates(start, MulAdd(Zero(256), row[..n], v[..n]), PointwiseMul(row[n], v[n]));
    }
  }

  lemma {:induction false} MulAddSum(row: seq<Polynomial>, u: seq<Polynomial>, v: seq<Polynomial>)
    requires RingVector(row) && RingVector(u) && RingVector(v) && |row| == |u| == |v|
    ensures MulAdd(Zero(256), row, VecAdd(u, v))
            == PolyAdd(MulAdd(Zero(256), row, u), MulAdd(Zero(256), row, v))
    decreases |row|
  {
    hide MulAdd, RingVector, PolyAdd, PointwiseMul, Zero, VecAdd;
    var w := VecAdd(u, v);
    MulAddUnfold(Zero(256), row, u);
    MulAddUnfold(Zero(256), row, v);
    MulAddUnfold(Zero(256), row, w);
    if row == [] {
      PolyAddZero(Zero(256));
    } else {
      var n := |row| - 1;
      MulAddSum(row[..n], u[..n], v[..n]);
      assert w[..n] == VecAdd(u[..n], v[..n]);
      PointwiseDistributes(row[n], u[n], v[n]);
      PolyAddSwap(MulAdd(Zero(256), row[..n], u[..n]), MulAdd(Zero(256), row[..n], v[..n]),
                  PointwiseMul(row[n], u[n]), PointwiseMul(row[n], v[n]));
    }
  }

  lemma {:induction false} MulAddScaled(row: seq<Polynomial>, c: Polynomial, v: seq<Polynomial>)
    requires RingVector(row) && RingElement(c) && RingVector(v) && |row| == |v|
    ensures MulAdd(Zero(256), row, VecMul(c, v)) == PointwiseMul(c, MulAdd(Zero(256), row, v))
    decreases |row|
  {
    hide MulAdd, RingVector, PolyAdd, PointwiseMul, Zero, VecMul;
    var w := VecMul(c, v);
    MulAddUnfold(Zero(256), row, v);
    MulAddUnfold(Zero(256), row, w);
    if row == [] {
      PointwiseZero(c);
    } else {
      var n := |row| - 1;
      MulAddScaled(row[..n], c, v[..n]);
      assert w[..n] == VecMul(c, v[..n]);
      PointwiseSwap(row[n], c, v[n]);
      PointwiseDistributes(c, MulAdd(Zero(256), row[..n], v[..n]), PointwiseMul(row[n], v[n]));
    }
  }

  //////////////////////////////////////////////////////////////////////////////
  // The verifier's commitment
  //////////////////////////////////////////////////////////////////////////////

  /** One coordinate: with t1 + t0 = s2 + u, w + c*u - c*t1 = w - c*s2 + c*t0. */
  lemma CommitmentCoordinate(w: FieldElement, c: FieldElement, u: FieldElement, t1: FieldElement, t0: FieldElement,
                             s2: FieldElement)
    requires Add(t1, t0) == Add(s2, u)
    ensures Sub(Add(w, Mul(c, u)), Mul(c, t1)) == Add(Sub(w, Mul(c, s2)), Mul(c, t0))
  {
    hide *;
    MulDistributes(c, t1, t0);
    MulDistributes(c, s2, u);
    Rebalance(w, Mul(c, u), Mul(c, t1), Mul(c, t0), Mul(c, s2));
  }

  lemma Wraps(a: FieldElement, b: FieldElement)
    ensures Add(a, b) == a + b || Add(a, b) == a + b - 8380417
    ensures Sub(a, b) == a - b || Sub(a, b) == a - b + 8380417
  {
    hide *;
    AddExact(a, b);
    SubExact(a, b);
  }

  lemma Rebalance(w: FieldElement, u: FieldElement, a: FieldElement, b: FieldElement, s: FieldElement)
    requires Add(a, b) == Add(s, u)
    ensures Sub(Add(w, u), a) == Add(Sub(w, s), b)
  {
    hide *;
    Wraps(a, b);
    Wraps(s, u);
    Wraps(w, u);
    Wraps(Add(w, u), a);
    Wraps(w, s);
    Wraps(Sub(w, s), b);
  }

  lemma CommitmentIdentity(w: Polynomial, c: Polynomial, u: Polynomial, t1: Polynomial, t0: Polynomial, s2: Polynomial)
    requires |w| == |c| == |u| == |t1| == |t0| == |s2|
    requires PolyAdd(t1, t0) == PolyAdd(s2, u)
    ensures PolySub(PolyAdd(w, PointwiseMul(c, u)), PointwiseMul(c, t1))
            == PolyAdd(PolySub(w, PointwiseMul(c, s2)), PointwiseMul(c, t0))
  {
    hide *;
    forall i | 0 <= i < |w|
      ensures Sub(Add(w[i], Mul(c[i], u[i])), Mul(c[i], t1[i])) == Add(Sub(w[i], Mul(c[i], s2[i])), Mul(c[i], t0[i]))
    {
      assert PolyAdd(t1, t0)[i] == PolyAdd(s2, u)[i];
      CommitmentCoordinate(w[i], c[i], u[i], t1[i], t0[i], s2[i]);
    }
  }

  /** t1 + t0 = s2 + A s1, in one row and in the transformed domain. */
  predicate Balanced(row: seq<Polynomial>, s1: seq<Polynomial>, t1: Polynomial, t0: Polynomial, s2: Polynomial)
  {
    && RingVector(row) && RingVector(s1) && |row| == |s1|
    && RingElement(t1) && RingElement(t0) && RingElement(s2)
    && PolyAdd(t1, t0) == MulAdd(s2, row, s1)
  }

  /**
   Row by row: with z = y + cs1 and t1 + t0 = s2 + A s1, the verifier's
   A z - c t1 is the signer's A y - cs2 + ct0.
   */
  lemma RowIdentity(row: seq<Polynomial>, yHat: seq<Polynomial>, c: Polynomial, s1: seq<Polynomial>,
                    t1: Polynomial, t0: Polynomial, s2: Polynomial)
    requires Balanced(row, s1, t1, t0, s2) && RingVector(yHat) && |yHat| == |row| && RingElement(c)
    ensures var w := MulAdd(Zero(256), row, yHat);
            PolySub(MulAdd(Zero(256), row, VecAdd(yHat, VecMul(c, s1))), PointwiseMul(c, t1))
            == PolyAdd(PolySub(w, PointwiseMul(c, s2)), PointwiseMul(c, t0))
  {
    hide MulAdd, RingVector, PolyAdd, PolySub, PointwiseMul, Zero, VecMul, VecAdd;
    MulAddSum(row, yHat, VecMul(c, s1));
    MulAddScaled(row, c, s1);
    MulAddStart(s2, row, s1);
    CommitmentIdentity(MulAdd(Zero(256), row, yHat), c, MulAdd(Zero(256), row, s1), t1, t0, s2);
  }

  //////////////////////////////////////////////////////////////////////////////
  // The loops over vectors
  //////////////////////////////////////////////////////////////////////////////

  function TransformAll(v: seq<Polynomial>): (r: seq<Polynomial>)
    requires RingVector(v)
    ensures |r| == |v| && RingVector(r)
    ensures forall i :: 0 <= i < |v| ==> r[i] == Transform(v[i])
  {
    seq(|v|, i requires 0 <= i < |v| => Transform(v[i]))
  }

  function InverseAll(v: seq<Polynomial>): (r: seq<Polynomial>)
    requires RingVector(v)
    ensures |r| == |v| && RingVector(r)
    ensures forall i :: 0 <= i < |v| ==> r[i] == InverseTransform(v[i])
  {
    seq(|v|, i requires 0 <= i < |v| => InverseTransform(v[i]))
  }

  /** A o v, one row after the other. */
  function MatrixMul(a: seq<seq<Polynomial>>, v: seq<Polynomial>): (r: seq<Polynomial>)
    requires RingVector(v) && RingMatrix(a, |a|, |v|)
    ensures |r| == |a| && RingVector(r)
    ensures forall i :: 0 <= i < |a| ==> r[i] == MulAdd(Zero(256), a[i], v)
  {
    seq(|a|, i requires 0 <= i < |a| => MulAdd(Zero(256), a[i], v))
  }

  /** NTT^-1(c o v[i]) for every i: cs1, cs2 and ct0. */
  function Scaled(c: Polynomial, v: seq<Polynomial>): (r: seq<Polynomial>)
    requires RingElement(c) && RingVector(v)
    ensures |r| == |v| && RingVector(r)
    ensures forall i :: 0 <= i < |v| ==> r[i] == InverseTransform(PointwiseMul(c, v[i]))
  {
    InverseAll(VecMul(c, v))
  }

  /** w = NTT^-1(A o NTT(y)). */
  function Commitment(a: seq<seq<Polynomial>>, y: seq<Polynomial>): (w: seq<Polynomial>)
    requires RingVector(y) && RingMatrix(a, |a|, |y|)
    ensures |w| == |a| && RingVector(w)
    ensures forall i :: 0 <= i < |a| ==> w[i] == InverseTransform(MulAdd(Zero(256), a[i], TransformAll(y)))
  {
    InverseAll(MatrixMul(a, TransformAll(y)))
  }

  /** One row of w' = NTT^-1(A o NTT(z) - c o NTT(t1 * 2^13)). */
  function ApproxRow(row: seq<Polynomial>, t1: Polynomial, zHat: seq<Polynomial>, c: Polynomial): (f: Polynomial)
    requires RingVector(row) && RingVector(zHat) && |row| == |zHat| && RingElement(t1) && RingElement(c)
    ensures RingElement(f)
  {
    InverseTransform(PolySub(MulAdd(Zero(256), row, zHat), PointwiseMul(c, t1)))
  }

  function Approx(a: seq<seq<Polynomial>>, t1: seq<Polynomial>, z: seq<Polynomial>, c: Polynomial): (w: seq<Polynomial>)
    requires RingVector(z) && RingVector(t1) && RingMatrix(a, |t1|, |z|) && RingElement(c)
    ensures |w| == |t1| && RingVector(w)
  {
    hide ApproxRow, TransformAll;
    var zHat := TransformAll(z);
    seq(|t1|, i requires 0 <= i < |t1| => ApproxRow(a[i], t1[i], zHat, c))
  }

  lemma ApproxAt(a: seq<seq<Polynomial>>, t1: seq<Polynomial>, z: seq<Polynomial>, c: Polynomial, i: nat)
    requires RingVector(z) && RingVector(t1) && RingMatrix(a, |t1|, |z|) && RingElement(c) && i < |t1|
    ensures Approx(a, t1, z, c)[i] == ApproxRow(a[i], t1[i], TransformAll(z), c)
  {
    hide ApproxRow, TransformAll;
  }

  /** NTT(y + NTT^-1(c o s1)) = NTT(y) + c o s1. */
  lemma ResponseTransform(y: seq<Polynomial>, c: Polynomial, s1: seq<Polynomial>)
    requires RingVector(y) && RingVector(s1) && |y| == |s1| && RingElement(c)
    ensures TransformAll(VecAdd(y, Scaled(c, s1))) == VecAdd(TransformAll(y), VecMul(c, s1))
  {
    hide Transform, InverseTransform, PolyAdd, PointwiseMul, TransformAll, Scaled, VecAdd, VecMul;
    forall i | 0 <= i < |y|
      ensures Transform(PolyAdd(y[i], InverseTransform(PointwiseMul(c, s1[i]))))
              == PolyAdd(Transform(y[i]), PointwiseMul(c, s1[i]))
    {
      var f := PointwiseMul(c, s1[i]);
      TransformAdd(y[i], InverseTransform(f));
      TransformOfInverseTransform(f);
    }
  }

  /** NTT^-1 of w - c o s2 + c o t0, part by part. */
  lemma InverseParts(w: Polynomial, a: Polynomial, b: Polynomial)
    requires RingElement(w) && RingElement(a) && RingElement(b)
    ensures InverseTransform(PolyAdd(PolySub(w, a), b))
            == PolyAdd(PolySub(InverseTransform(w), InverseTransform(a)), InverseTransform(b))
  {
    hide InverseTransform, PolyAdd, PolySub;
    InverseTransformAdd(PolySub(w, a), b);
    InverseTransformAdd(w, a);
  }

  /** The verifier's w' is w - cs2 + ct0, for z = y + cs1 and a balanced key. */
  lemma ApproxIs(row: seq<Polynomial>, s1: seq<Polynomial>, t1: Polynomial, t0: Polynomial, s2: Polynomial,
                 y: seq<Polynomial>, c: Polynomial)
    requires Balanced(row, s1, t1, t0, s2) && RingVector(y) && |y| == |s1| && RingElement(c)
    ensures ApproxRow(row, t1, TransformAll(VecAdd(y, Scaled(c, s1))), c)
            == PolyAdd(PolySub(InverseTransform(MulAdd(Zero(256), row, TransformAll(y))),
                               InverseTransform(PointwiseMul(c, s2))),
                       InverseTransform(PointwiseMul(c, t0)))
  {
    hide Transform, InverseTransform, PolyAdd, PolySub, PointwiseMul, MulAdd, Zero;
    hide TransformAll, VecAdd, VecMul, Scaled;
    var yHat := TransformAll(y);
    ResponseTransform(y, c, s1);
    RowIdentity(row, yHat, c, s1, t1, t0, s2);
    InverseParts(MulAdd(Zero(256), row, yHat), PointwiseMul(c, s2), PointwiseMul(c, t0));
  }

  //////////////////////////////////////////////////////////////////////////////
  // The same in the ring
  //////////////////////////////////////////////////////////////////////////////

  /** The sum of the products of the entries of a row with those of a vector, in Z_q[X]/(X^256 + 1). */
  function RowSum(row: seq<Polynomial>, z: seq<Polynomial>): (r: Polynomial)
    requires RingVector(row) && RingVector(z) && |row| == |z|
    ensures RingElement(r)
  {
    hide Product, InverseTransform, PolyAdd;
    if row == [] then Zero(256)
    else
      var n := |row| - 1;
      PolyAdd(RowSum(row[..n], z[..n]), Product(InverseTransform(row[n]), z[n]))
  }

  lemma InverseOfZero()
    ensures InverseTransform(Zero(256)) == Zero(256)
  {
    hide *;
    var f := Zero(256);
    InverseTransformAdd(f, f);
    SubSelf(f);
    SubSelf(InverseTransform(f));
  }

  lemma SubSelf(f: Polynomial)
    ensures PolySub(f, f) == Zero(|f|)
  {
    forall i | 0 <= i < |f|
      ensures Sub(f[i], f[i]) == 0
    {
      SubExact(f[i], f[i]);
    }
  }

  /** NTT^-1(c o NTT(f)) is the product of NTT^-1(c) and f. */
  lemma PointwiseInRing(c: Polynomial, f: Polynomial)
    requires RingElement(c) && RingElement(f)
    ensures InverseTransform(PointwiseMul(c, Transform(f))) == Product(InverseTransform(c), f)
  {
    hide Transform, InverseTransform, PointwiseMul, Product;
    TransformOfInverseTransform(c);
    TransformedProduct(InverseTransform(c), f);
  }

  lemma {:induction false} RowInRing(row: seq<Polynomial>, z: seq<Polynomial>)
    requires RingVector(row) && RingVector(z) && |row| == |z|
    ensures InverseTransform(MulAdd(Zero(256), row, TransformAll(z))) == RowSum(row, z)
    decreases |row|
  {
    hide Transform, InverseTransform, PolyAdd, PointwiseMul, MulAdd, Zero, TransformAll, Product;
    var hat := TransformAll(z);
    MulAddUnfold(Zero(256), row, hat);
    if row == [] {
      InverseOfZero();
    } else {
      var n := |row| - 1;
      RowInRing(row[..n], z[..n]);
      assert hat[..n] == TransformAll(z[..n]);
      PointwiseInRing(row[n], z[n]);
      InverseTransformAdd(MulAdd(Zero(256), row[..n], hat[..n]), PointwiseMul(row[n], hat[n]));
    }
  }

  /** w is A y. */
  lemma CommitmentInRing(a: seq<seq<Polynomial>>, y: seq<Polynomial>, i: nat)
    requires RingVector(y) && RingMatrix(a, |a|, |y|) && i < |a|
    ensures Commitment(a, y)[i] == RowSum(a[i], y)
  {
    hide Transform, InverseTransform, MulAdd, Zero, TransformAll, Commitment, RowSum;
    RowInRing(a[i], y);
  }

  /** w' is A z - c t1. */
  lemma ApproxInRing(a: seq<seq<Polynomial>>, t1: seq<Polynomial>, z: seq<Polynomial>, c: Polynomial, i: nat)
    requires RingVector(z) && RingVector(t1) && RingMatrix(a, |t1|, |z|) && RingElement(c) && i < |t1|
    ensures Approx(a, t1, z, Transform(c))[i] == PolySub(RowSum(a[i], z), Product(c, InverseTransform(t1[i])))
  {
    hide Transform, InverseTransform, MulAdd, Zero, TransformAll, RowSum, Product, PointwiseMul, PolySub, Approx;
    ApproxAt(a, t1, z, Transform(c), i);
    var sum := MulAdd(Zero(256), a[i], TransformAll(z));
    RowInRing(a[i], z);
    ScaledInRing(c, t1[i]);
    InverseTransformAdd(sum, PointwiseMul(Transform(c), t1[i]));
  }

  /** NTT^-1(NTT(c) o v) is the product of c and NTT^-1(v). */
  lemma ScaledInRing(c: Polynomial, v: Polynomial)
    requires RingElement(c) && RingElement(v)
    ensures InverseTransform(PointwiseMul(Transform(c), v)) == Product(c, InverseTransform(v))
  {
    hide Transform, InverseTransform, PointwiseMul, Product;
    TransformOfInverseTransform(v);
    TransformedProduct(c, InverseTransform(v));
  }

  method TransformVector(v: seq<Polynomial>) returns (r: seq<Polynomial>)
    requires RingVector(v)
    ensures r == TransformAll(v)
  {
    hide Transform, TransformAll;
    r := [];
    for i := 0 to |v|
      invariant |r| == i && forall j :: 0 <= j < i ==> r[j] == Transform(v[j])
    {
      var t := Ntt256(v[i]);
      r := r + [t];
    }
  }

  /** One row of the matrix products: the running sum of nttMul. */
  method RowProduct(start: Polynomial, row: seq<Polynomial>, v: seq<Polynomial>) returns (r: Polynomial)
    requires RingElement(start) && RingVector(row) && RingVector(v) && |row| == |v|
    ensures r == MulAdd(start, row, v)
  {
    hide PolyAdd, PointwiseMul;
    r := start;
    for j := 0 to |row|
      invariant RingElement(r) && r == MulAdd(start, row[..j], v[..j])
    {
      r := PolyAdd(r, PointwiseMul(row[j], v[j]));
      assert row[..j + 1][..j] == row[..j] && v[..j + 1][..j] == v[..j];
    }
    assert row[..|row|] == row && v[..|v|] == v;
  }

  /** NTT^-1(A o v). */
  method MatrixProduct(a: seq<seq<Polynomial>>, v: seq<Polynomial>) returns (w: seq<Polynomial>)
    requires RingVector(v) && RingMatrix(a, |a|, |v|)
    ensures w == InverseAll(MatrixMul(a, v))
  {
    hide InverseTransform, InverseAll, MatrixMul, MulAdd, Zero;
    w := [];
    for i := 0 to |a|
      invariant |w| == i && forall j :: 0 <= j < i ==> w[j] == InverseTransform(MulAdd(Zero(256), a[j], v))
    {
      var hat := RowProduct(Zero(256), a[i], v);
      var f := InverseNtt256(hat);
      w := w + [f];
    }
  }

  /** The loops of sign that multiply the challenge into a vector. */
  method ScaledVector(c: Polynomial, v: seq<Polynomial>) returns (w: seq<Polynomial>)
    requires RingElement(c) && RingVector(v)
    ensures w == Scaled(c, v)
  {
    hide InverseTransform, Scaled, PointwiseMul;
    w := [];
    for i := 0 to |v|
      invariant |w| == i && forall j :: 0 <= j < i ==> w[j] == InverseTransform(PointwiseMul(c, v[j]))
    {
      var f := InverseNtt256(PointwiseMul(c, v[i]));
      w := w + [f];
    }
  }
}
