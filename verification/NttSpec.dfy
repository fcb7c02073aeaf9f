/**
 The number-theoretic transform as mathematics (section 7.5 of FIPS 204).

 The transform is a binary tree of 9 levels. Node k at height d holds a
 polynomial of 2^d coefficients modulo X^(2^d) - NodeRoot(k); node 1 holds the
 ring element modulo X^256 + 1, and its children are obtained by splitting
 X^(2^d) - z^2 into X^(2^(d-1)) - z and X^(2^(d-1)) + z with z = Zeta(k).
 */
module NttSpec {
  import opened Field
  import opened FieldRing
  import opened Zetas
  import opened Poly

  /** k numbers a node at height d of the tree. */
  predicate Node(k: nat, d: nat)
  {
    d <= 8 && Pow2(8 - d) <= k < 2 * Pow2(8 - d)
  }

  lemma NodeChildren(k: nat, d: nat)
    requires Node(k, d) && d > 0
    ensures k < 256 && Node(2 * k, d - 1) && Node(2 * k + 1, d - 1)
    ensures 0 <= 3 * Pow2(8 - d) - 1 - k < 256
  {
    Pow2Values();
    assert Pow2(8 - (d - 1)) == 2 * Pow2(8 - d);
  }

  /** NTT of the polynomial at node k. */
  function Ntt(f: Polynomial, k: nat, d: nat): (r: Polynomial)
    requires Node(k, d) && |f| == Pow2(d)
    ensures |r| == |f|
    decreases d
  {
    if d == 0 then f
    else
      NodeChildren(k, d);
      var h := Pow2(d - 1);
      var t := Scale(Zeta(k), f[h..]);
      Ntt(PolyAdd(f[..h], t), 2 * k, d - 1) + Ntt(PolySub(f[..h], t), 2 * k + 1, d - 1)
  }

  /** The table index that the inverse transform uses at node k: the mirror image in its layer. */
  function Mirror(k: nat, d: nat): (m: nat)
    requires Node(k, d) && d > 0
    ensures m < 256
  {
    NodeChildren(k, d);
    3 * Pow2(8 - d) - 1 - k
  }

  /** The inverse butterflies, before the final scaling. */
  function InverseNtt(g: Polynomial, k: nat, d: nat): (r: Polynomial)
    requires Node(k, d) && |g| == Pow2(d)
    ensures |r| == |g|
    decreases d
  {
    if d == 0 then g
    else
      NodeChildren(k, d);
      var h := Pow2(d - 1);
      var low, high := InverseNtt(g[..h], 2 * k, d - 1), InverseNtt(g[h..], 2 * k + 1, d - 1);
      PolyAdd(low, high) + Scale(Zeta(Mirror(k, d)), PolySub(high, low))
  }

  lemma NttUnfold(f: Polynomial, k: nat, d: nat)
    requires Node(k, d) && |f| == Pow2(d) && d > 0
    ensures k < 256 && Node(2 * k, d - 1) && Node(2 * k + 1, d - 1) && Pow2(d) == 2 * Pow2(d - 1)
    ensures var h := Pow2(d - 1);
            var t := Scale(Zeta(k), f[h..]);
            && Ntt(f, k, d)[..h] == Ntt(PolyAdd(f[..h], t), 2 * k, d - 1)
            && Ntt(f, k, d)[h..] == Ntt(PolySub(f[..h], t), 2 * k + 1, d - 1)
  {
    hide Zeta, PolyAdd, PolySub, Scale;
    NodeChildren(k, d);
  }

  lemma InverseUnfold(g: Polynomial, k: nat, d: nat)
    requires Node(k, d) && |g| == Pow2(d) && d > 0
    ensures k < 256 && Node(2 * k, d - 1) && Node(2 * k + 1, d - 1) && Pow2(d) == 2 * Pow2(d - 1)
    ensures var h := Pow2(d - 1);
            var low, high := InverseNtt(g[..h], 2 * k, d - 1), InverseNtt(g[h..], 2 * k + 1, d - 1);
            && InverseNtt(g, k, d)[..h] == PolyAdd(low, high)
            && InverseNtt(g, k, d)[h..] == Scale(Zeta(Mirror(k, d)), PolySub(high, low))
  {
    hide Zeta, PolyAdd, PolySub, Scale, Mirror;
    NodeChildren(k, d);
  }

  //////////////////////////////////////////////////////////////////////////////
  // The transform evaluates at the roots of X^256 + 1
  //////////////////////////////////////////////////////////////////////////////

  /** The polynomial at node k, height d, is taken modulo X^(2^d) - NodeRoot(k). */
  function NodeRoot(k: nat): (r: FieldElement)
    requires 1 <= k < 512
  {
    if k == 1 then MINUS_ONE
    else if k % 2 == 0 then Zeta(k / 2)
    else Neg(Zeta(k / 2))
  }

  lemma NodeRange(k: nat, d: nat)
    requires Node(k, d)
    ensures 1 <= k < 512
  {
    Pow2Values();
  }

  /** The point at which coordinate i below node k evaluates. */
  function Root(k: nat, d: nat, i: nat): (r: FieldElement)
    requires Node(k, d) && i < Pow2(d)
    decreases d
  {
    NodeRange(k, d);
    if d == 0 then NodeRoot(k)
    else
      NodeChildren(k, d);
      var h := Pow2(d - 1);
      if i < h then Root(2 * k, d - 1, i) else Root(2 * k + 1, d - 1, i - h)
  }

  lemma RootUnfold(k: nat, d: nat, i: nat)
    requires Node(k, d) && i < Pow2(d) && d > 0
    ensures Node(2 * k, d - 1) && Node(2 * k + 1, d - 1) && Pow2(d) == 2 * Pow2(d - 1)
    ensures var h := Pow2(d - 1);
            Root(k, d, i) == if i < h then Root(2 * k, d - 1, i) else Root(2 * k + 1, d - 1, i - h)
  {
    hide NodeRoot;
    NodeChildren(k, d);
  }

  /** Both children's roots are square roots of the parent's. */
  lemma NodeRootSquares(k: nat)
    requires 1 <= k < 256
    ensures Mul(NodeRoot(2 * k), NodeRoot(2 * k)) == NodeRoot(k)
    ensures Mul(NodeRoot(2 * k + 1), NodeRoot(2 * k + 1)) == NodeRoot(k)
  {
    hide Zeta, Mul, Sub;
    SquareOfNeg(Zeta(k));
    if k == 1 {
      ZetaPowersOfTwo();
    } else {
      ZetaSquares(k / 2);
    }
  }

  lemma SquareOfNeg(a: FieldElement)
    ensures Mul(Neg(a), Neg(a)) == Mul(a, a)
  {
    hide *;
    MulNeg(Neg(a), a);
    MulCommutes(Neg(a), a);
    MulNeg(a, a);
    NegNeg(Mul(a, a));
  }

  lemma {:induction false} RootPower(k: nat, d: nat, i: nat)
    requires Node(k, d) && i < Pow2(d)
    ensures 1 <= k < 512 && Pow(Root(k, d, i), Pow2(d)) == NodeRoot(k)
    decreases d
  {
    hide Zeta, Mul, Pow, NodeRoot;
    NodeRange(k, d);
    if d == 0 {
      PowOne(NodeRoot(k));
    } else {
      NodeChildren(k, d);
      var h := Pow2(d - 1);
      var x := Root(k, d, i);
      SquareOfPow(x, h);
      NodeRootSquares(k);
      if i < h {
        RootPower(2 * k, d - 1, i);
      } else {
        RootPower(2 * k + 1, d - 1, i - h);
      }
    }
  }

  /** One split: at a root x of the left (right) child, f has the value of its left (right) remainder. */
  lemma EvalSplit(f: Polynomial, h: nat, z: FieldElement, x: FieldElement)
    requires h <= |f| == 2 * h
    ensures Pow(x, h) == z ==> Eval(f, x) == Eval(PolyAdd(f[..h], Scale(z, f[h..])), x)
    ensures Pow(x, h) == Neg(z) ==> Eval(f, x) == Eval(PolySub(f[..h], Scale(z, f[h..])), x)
  {
    hide *;
    var low, high := f[..h], f[h..];
    assert f == low + high;
    EvalConcat(low, high, x);
    EvalAdd(low, Scale(z, high), x);
    EvalSub(low, Scale(z, high), x);
    EvalScale(z, high, x);
    SubIsAddNeg(Eval(low, x), Mul(z, Eval(high, x)));
    MulCommutes(Neg(z), Eval(high, x));
    MulNeg(Eval(high, x), z);
    MulCommutes(Eval(high, x), z);
  }

  /** Coordinate i of the transform is the value of the polynomial at Root(k, d, i). */
  lemma {:induction false} NttIsEval(f: Polynomial, k: nat, d: nat, i: nat)
    requires Node(k, d) && |f| == Pow2(d) && i < Pow2(d)
    ensures Ntt(f, k, d)[i] == Eval(f, Root(k, d, i))
    decreases d
  {
    hide *;
    if d == 0 {
      NttLeaf(f, k);
      EvalSingleton(f[0], Root(k, d, i));
    } else {
      NttUnfold(f, k, d);
      RootUnfold(k, d, i);
      var h := Pow2(d - 1);
      var z := Zeta(k);
      var t := Scale(z, f[h..]);
      EvalSplit(f, h, z, Root(k, d, i));
      NodeRange(k, d);
      NodeRootChildren(k);
      if i < h {
        NttIsEval(PolyAdd(f[..h], t), 2 * k, d - 1, i);
        RootPower(2 * k, d - 1, i);
      } else {
        NttIsEval(PolySub(f[..h], t), 2 * k + 1, d - 1, i - h);
        RootPower(2 * k + 1, d - 1, i - h);
      }
    }
  }

  lemma NttLeaf(f: Polynomial, k: nat)
    requires Node(k, 0) && |f| == Pow2(0)
    ensures Pow2(0) == 1 && f == [f[0]] && Ntt(f, k, 0) == f && InverseNtt(f, k, 0) == f
  {
  }

  lemma NodeRootChildren(k: nat)
    requires 1 <= k < 256
    ensures NodeRoot(2 * k) == Zeta(k) && NodeRoot(2 * k + 1) == Neg(Zeta(k))
  {
    hide Zeta;
  }

  lemma {:induction false} RootIsLeaf(k: nat, d: nat, i: nat)
    requires Node(k, d) && i < Pow2(d)
    ensures 1 <= k * Pow2(d) + i < 512 && Root(k, d, i) == NodeRoot(k * Pow2(d) + i)
    decreases d
  {
    hide *;
    if d == 0 {
      RootAtLeaf(k);
    } else {
      RootUnfold(k, d, i);
      var h := Pow2(d - 1);
      Regroup(k, h);
      if i < h {
        RootIsLeaf(2 * k, d - 1, i);
      } else {
        RootIsLeaf(2 * k + 1, d - 1, i - h);
      }
    }
  }

  lemma RootAtLeaf(k: nat)
    requires Node(k, 0)
    ensures 1 <= k < 512 && Pow2(0) == 1 && Root(k, 0, 0) == NodeRoot(k)
  {
    NodeRange(k, 0);
  }

  lemma Regroup(k: nat, h: nat)
    ensures k * (2 * h) == (2 * k) * h && (2 * k + 1) * h == (2 * k) * h + h
  {
  }

  /** Leaf i of the whole tree is zeta^(2 BitRev8(i) + 1). */
  lemma LeafRoot(i: nat)
    requires i < 256
    ensures Pow2(8) == 256 && NodeRoot(256 + i) == Pow(ZETA, 2 * BitRev(i, 8) + 1)
  {
    hide *;
    Pow2Values();
    var j := i / 2;
    var e := BitRev(j, 8);
    ZetaIsPower(128 + j);
    BitRevLeading(128 + j, 7, 8);
    BitRevChildren(j);
    NodeRootChildren(128 + j);
    assert Zeta(128 + j) == Pow(ZETA, e + 1);
    if i % 2 == 1 {
      PowAdd(ZETA, 256, e + 1);
      ZetaOrder();
      MulMinusOne(Zeta(128 + j));
    }
  }

  /** NTT(f)[i] = f(zeta^(2 BitRev8(i) + 1)): the defining property of the transform. */
  lemma NttDefinition(f: Polynomial, i: nat)
    requires |f| == 256 && i < 256
    ensures Pow2(8) == 256 && Node(1, 8)
    ensures Ntt(f, 1, 8)[i] == Eval(f, Pow(ZETA, 2 * BitRev(i, 8) + 1))
  {
    hide Zeta, Ntt, Eval, Pow, Root, NodeRoot;
    Pow2Values();
    NttIsEval(f, 1, 8, i);
    RootIsLeaf(1, 8, i);
    LeafRoot(i);
  }

  //////////////////////////////////////////////////////////////////////////////
  // Ring homomorphism
  //////////////////////////////////////////////////////////////////////////////

  lemma NttAdd(f: Polynomial, g: Polynomial, k: nat, d: nat)
    requires Node(k, d) && |f| == |g| == Pow2(d)
    ensures Ntt(PolyAdd(f, g), k, d) == PolyAdd(Ntt(f, k, d), Ntt(g, k, d))
  {
    hide Zeta, Add, Mul, Ntt, Eval, Root, Pow2;
    forall i | 0 <= i < Pow2(d)
      ensures Ntt(PolyAdd(f, g), k, d)[i] == PolyAdd(Ntt(f, k, d), Ntt(g, k, d))[i]
    {
      NttIsEval(f, k, d, i);
      NttIsEval(g, k, d, i);
      NttIsEval(PolyAdd(f, g), k, d, i);
      EvalAdd(f, g, Root(k, d, i));
    }
  }

  lemma NttSub(f: Polynomial, g: Polynomial, k: nat, d: nat)
    requires Node(k, d) && |f| == |g| == Pow2(d)
    ensures Ntt(PolySub(f, g), k, d) == PolySub(Ntt(f, k, d), Ntt(g, k, d))
  {
    hide Zeta, Add, Sub, Mul, Ntt, Eval, Root, Pow2;
    forall i | 0 <= i < Pow2(d)
      ensures Ntt(PolySub(f, g), k, d)[i] == PolySub(Ntt(f, k, d), Ntt(g, k, d))[i]
    {
      NttIsEval(f, k, d, i);
      NttIsEval(g, k, d, i);
      NttIsEval(PolySub(f, g), k, d, i);
      EvalSub(f, g, Root(k, d, i));
    }
  }

  lemma NttScale(c: FieldElement, f: Polynomial, k: nat, d: nat)
    requires Node(k, d) && |f| == Pow2(d)
    ensures Ntt(Scale(c, f), k, d) == Scale(c, Ntt(f, k, d))
  {
    hide Zeta, Add, Mul, Ntt, Eval, Root, Pow2;
    forall i | 0 <= i < Pow2(d)
      ensures Ntt(Scale(c, f), k, d)[i] == Scale(c, Ntt(f, k, d))[i]
    {
      NttIsEval(f, k, d, i);
      NttIsEval(Scale(c, f), k, d, i);
      EvalScale(c, f, Root(k, d, i));
    }
  }

  /** The transform of a product modulo X^256 + 1 is the coordinatewise product. */
  lemma NttProduct(f: Polynomial, g: Polynomial)
    requires |f| == |g| == 256
    ensures Pow2(8) == 256 && Node(1, 8)
    ensures Ntt(Product(f, g), 1, 8) == PointwiseMul(Ntt(f, 1, 8), Ntt(g, 1, 8))
  {
    hide Zeta, Add, Mul, Ntt, Eval, Root, Pow, Product;
    Pow2Values();
    forall i | 0 <= i < 256
      ensures Ntt(Product(f, g), 1, 8)[i] == PointwiseMul(Ntt(f, 1, 8), Ntt(g, 1, 8))[i]
    {
      NttIsEval(f, 1, 8, i);
      NttIsEval(g, 1, 8, i);
      NttIsEval(Product(f, g), 1, 8, i);
      RootPower(1, 8, i);
      EvalProduct(f, g, Root(1, 8, i));
    }
  }

  //////////////////////////////////////////////////////////////////////////////
  // Inverse
  //////////////////////////////////////////////////////////////////////////////

  /** The factor that d layers of inverse butterflies leave behind: 2^d. */
  function Factor(d: nat): (r: FieldElement)
  {
    if d == 0 then ONE else Add(Factor(d - 1), Factor(d - 1))
  }

  /** 16382 = 256^-1 * R mod q undoes the factor of the whole tree. */
  lemma FactorInverse()
    ensures Mul(16382, Factor(8)) == ONE
  {
    hide Mul, Add;
    AddExact(4193792, 4193792);
    AddExact(7167, 7167);
    AddExact(14334, 14334);
    AddExact(28668, 28668);
    AddExact(57336, 57336);
    AddExact(114672, 114672);
    AddExact(229344, 229344);
    AddExact(458688, 458688);
    MulExact(16382, 917376);
    assert Factor(1) == 7167 && Factor(2) == 14334;
    assert Factor(3) == 28668 && Factor(4) == 57336;
    assert Factor(5) == 114672 && Factor(6) == 229344;
    assert Factor(7) == 458688 && Factor(8) == 917376;
  }

  lemma Twice(c: FieldElement, a: FieldElement)
    ensures Add(Mul(c, a), Mul(c, a)) == Mul(Add(c, c), a)
  {
    hide *;
    MulDistributes(a, c, c);
    MulCommutes(a, c);
    MulCommutes(a, Add(c, c));
  }

  /** An inverse butterfly undoes a butterfly, up to the factor 2. */
  lemma ButterflyThenInverse(c: FieldElement, z: FieldElement, m: FieldElement, a: FieldElement, b: FieldElement)
    requires Mul(z, m) == MINUS_ONE
    ensures var t := Mul(z, b);
            var u, v := Mul(c, Add(a, t)), Mul(c, Sub(a, t));
            && Add(u, v) == Mul(Add(c, c), a)
            && Mul(m, Sub(v, u)) == Mul(Add(c, c), b)
  {
    hide *;
    var t := Mul(z, b);
    var u, v := Mul(c, Add(a, t)), Mul(c, Sub(a, t));
    var ca, ct := Mul(c, a), Mul(c, t);
    MulDistributes(c, a, t);
    SubIsAddNeg(a, t);
    MulDistributes(c, a, Neg(t));
    MulNeg(c, t);
    SumAndDifference(ca, ct);
    Twice(c, a);
    Twice(c, t);
    // m * (-2c * z * b) == 2c * b
    var w := Add(c, c);
    MulNeg(m, Mul(w, t));
    MulAssociates(w, z, b);
    MulCommutes(w, z);
    MulAssociates(z, w, b);
    MulAssociates(m, z, Mul(w, b));
    MulCommutes(m, z);
    MulMinusOne(Mul(w, b));
    NegNeg(Mul(w, b));
  }

  /** With u = a + t and v = a - t: u + v = 2a and v - u = -2t. */
  lemma SumAndDifference(a: FieldElement, t: FieldElement)
    ensures Add(Add(a, t), Add(a, Neg(t))) == Add(a, a)
    ensures Sub(Add(a, Neg(t)), Add(a, t)) == Neg(Add(t, t))
  {
    hide *;
    AddSwap(a, t, a, Neg(t));
    AddNeg(t);
    AddZero(Add(a, a));
    SubIsAddNeg(Add(a, Neg(t)), Add(a, t));
    NegSum(a, t);
    AddSwap(a, Neg(t), Neg(a), Neg(t));
    AddNeg(a);
    NegSum(t, t);
    AddZero(Neg(Add(t, t)));
  }

  lemma FactorUnfold(d: nat)
    ensures Factor(0) == ONE && Factor(d + 1) == Add(Factor(d), Factor(d))
  {
    hide Add;
  }

  lemma ScaleOne(f: Polynomial)
    ensures Scale(ONE, f) == f
  {
    hide *;
    forall i | 0 <= i < |f|
      ensures Scale(ONE, f)[i] == f[i]
    {
      MulOne(f[i]);
    }
  }

  /** Inverse butterflies after the transform return the input, scaled by 2^d. */
  lemma {:induction false} InverseOfNtt(f: Polynomial, k: nat, d: nat)
    requires Node(k, d) && |f| == Pow2(d)
    ensures InverseNtt(Ntt(f, k, d), k, d) == Scale(Factor(d), f)
    decreases d
  {
    hide *;
    if d == 0 {
      FactorUnfold(0);
      NttLeaf(f, k);
      ScaleOne(f);
    } else {
      var h := Pow2(d - 1);
      var g := Ntt(f, k, d);
      NttUnfold(f, k, d);
      InverseUnfold(g, k, d);
      FactorUnfold(d - 1);
      var z, c := Zeta(k), Factor(d - 1);
      var t := Scale(z, f[h..]);
      InverseOfNtt(PolyAdd(f[..h], t), 2 * k, d - 1);
      InverseOfNtt(PolySub(f[..h], t), 2 * k + 1, d - 1);
      MirrorProduct(k, d);
      InverseStep(f, h, z, Zeta(Mirror(k, d)), c);
      JoinHalves(InverseNtt(g, k, d), h);
    }
  }

  lemma MirrorProduct(k: nat, d: nat)
    requires Node(k, d) && d > 0
    ensures k < 256 && Mul(Zeta(k), Zeta(Mirror(k, d))) == MINUS_ONE
  {
    hide Zeta, Mul;
    NodeChildren(k, d);
    ZetaMirror(k, 8 - d);
  }

  lemma JoinHalves(f: Polynomial, h: nat)
    requires h <= |f|
    ensures f == f[..h] + f[h..]
  {
  }

  lemma InverseStep(f: Polynomial, h: nat, z: FieldElement, m: FieldElement, c: FieldElement)
    requires |f| == 2 * h && Mul(z, m) == MINUS_ONE
    ensures var t := Scale(z, f[h..]);
            var u, v := Scale(c, PolyAdd(f[..h], t)), Scale(c, PolySub(f[..h], t));
            PolyAdd(u, v) + Scale(m, PolySub(v, u)) == Scale(Add(c, c), f)
  {
    hide *;
    var t := Scale(z, f[h..]);
    var u, v := Scale(c, PolyAdd(f[..h], t)), Scale(c, PolySub(f[..h], t));
    var low, high := PolyAdd(u, v), Scale(m, PolySub(v, u));
    forall i | 0 <= i < h
      ensures low[i] == Scale(Add(c, c), f[..h])[i]
      ensures high[i] == Scale(Add(c, c), f[h..])[i]
    {
      ButterflyThenInverse(c, z, m, f[..h][i], f[h..][i]);
    }
    ScaleHalves(Add(c, c), f, h);
  }

  /** A butterfly undoes an inverse butterfly, up to the factor 2. */
  lemma InverseThenButterfly(z: FieldElement, m: FieldElement, a: FieldElement, b: FieldElement)
    requires Mul(z, m) == MINUS_ONE
    ensures var t := Mul(z, Mul(m, Sub(b, a)));
            && Add(Add(a, b), t) == Add(a, a)
            && Sub(Add(a, b), t) == Add(b, b)
  {
    hide *;
    var t := Mul(z, Mul(m, Sub(b, a)));
    MulAssociates(z, m, Sub(b, a));
    MulMinusOne(Sub(b, a));
    SubIsAddNeg(b, a);
    NegSum(b, Neg(a));
    NegNeg(a);
    assert t == Add(Neg(b), a);
    AddCommutes(Neg(b), a);
    AddSwap(a, b, a, Neg(b));
    AddNeg(b);
    AddZero(Add(a, a));
    SubIsAddNeg(Add(a, b), t);
    NegSum(Neg(b), a);
    NegNeg(b);
    AddCommutes(b, Neg(a));
    AddSwap(a, b, Neg(a), b);
    AddNeg(a);
    AddZero(Add(b, b));
  }

  /** The transform after inverse butterflies returns the input, scaled by 2^d. */
  lemma {:induction false} NttOfInverse(g: Polynomial, k: nat, d: nat)
    requires Node(k, d) && |g| == Pow2(d)
    ensures Ntt(InverseNtt(g, k, d), k, d) == Scale(Factor(d), g)
    decreases d
  {
    hide *;
    if d == 0 {
      FactorUnfold(0);
      NttLeaf(g, k);
      ScaleOne(g);
    } else {
      var h := Pow2(d - 1);
      var f := InverseNtt(g, k, d);
      InverseUnfold(g, k, d);
      NttUnfold(f, k, d);
      FactorUnfold(d - 1);
      var c := Factor(d - 1);
      var low, high := InverseNtt(g[..h], 2 * k, d - 1), InverseNtt(g[h..], 2 * k + 1, d - 1);
      MirrorProduct(k, d);
      SplitOfInverse(low, high, Zeta(k), Zeta(Mirror(k, d)));
      NttAdd(low, low, 2 * k, d - 1);
      NttAdd(high, high, 2 * k + 1, d - 1);
      NttOfInverse(g[..h], 2 * k, d - 1);
      NttOfInverse(g[h..], 2 * k + 1, d - 1);
      DoubleScale(c, g[..h]);
      DoubleScale(c, g[h..]);
      JoinHalves(Ntt(f, k, d), h);
      ScaleHalves(Add(c, c), g, h);
    }
  }

  lemma ScaleHalves(c: FieldElement, g: Polynomial, h: nat)
    requires h <= |g|
    ensures Scale(c, g) == Scale(c, g[..h]) + Scale(c, g[h..])
  {
    hide *;
  }

  lemma SplitOfInverse(low: Polynomial, high: Polynomial, z: FieldElement, m: FieldElement)
    requires |low| == |high| && Mul(z, m) == MINUS_ONE
    ensures var t := Scale(z, Scale(m, PolySub(high, low)));
            && PolyAdd(PolyAdd(low, high), t) == PolyAdd(low, low)
            && PolySub(PolyAdd(low, high), t) == PolyAdd(high, high)
  {
    hide *;
    var t := Scale(z, Scale(m, PolySub(high, low)));
    forall i | 0 <= i < |low|
      ensures PolyAdd(PolyAdd(low, high), t)[i] == PolyAdd(low, low)[i]
      ensures PolySub(PolyAdd(low, high), t)[i] == PolyAdd(high, high)[i]
    {
      InverseThenButterfly(z, m, low[i], high[i]);
    }
  }

  lemma DoubleScale(c: FieldElement, f: Polynomial)
    ensures PolyAdd(Scale(c, f), Scale(c, f)) == Scale(Add(c, c), f)
  {
    hide *;
    forall i | 0 <= i < |f|
      ensures PolyAdd(Scale(c, f), Scale(c, f))[i] == Scale(Add(c, c), f)[i]
    {
      Twice(c, f[i]);
    }
  }

  //////////////////////////////////////////////////////////////////////////////
  // The transforms of ring elements
  //////////////////////////////////////////////////////////////////////////////

  /** NTT of a ring element. */
  function Transform(f: Polynomial): (r: Polynomial)
    requires |f| == 256
    ensures |r| == 256
  {
    Pow2Values();
    Ntt(f, 1, 8)
  }

  /** The inverse NTT of an element of T_q, with the final scaling by 16382. */
  function InverseTransform(g: Polynomial): (r: Polynomial)
    requires |g| == 256
    ensures |r| == 256
  {
    Pow2Values();
    Scale(16382, InverseNtt(g, 1, 8))
  }

  lemma TopNode()
    ensures Pow2(8) == 256 && Node(1, 8)
  {
    Pow2Values();
  }

  lemma TransformUnfold(f: Polynomial)
    requires |f| == 256 == Pow2(8) && Node(1, 8)
    ensures Transform(f) == Ntt(f, 1, 8)
  {
    hide Ntt;
  }

  lemma InverseTransformUnfold(g: Polynomial)
    requires |g| == 256 == Pow2(8) && Node(1, 8)
    ensures InverseTransform(g) == Scale(16382, InverseNtt(g, 1, 8))
  {
    hide InverseNtt, Scale;
  }

  lemma ScaleScale(c: FieldElement, d: FieldElement, f: Polynomial)
    ensures Scale(c, Scale(d, f)) == Scale(Mul(c, d), f)
  {
    hide *;
    forall i | 0 <= i < |f|
      ensures Scale(c, Scale(d, f))[i] == Scale(Mul(c, d), f)[i]
    {
      MulAssociates(c, d, f[i]);
    }
  }

  /** inverseNTT(ntt(f)) = f. */
  lemma InverseTransformOfTransform(f: Polynomial)
    requires |f| == 256
    ensures InverseTransform(Transform(f)) == f
  {
    hide *;
    TopNode();
    TransformUnfold(f);
    InverseTransformUnfold(Transform(f));
    InverseOfNtt(f, 1, 8);
    ScaleScale(16382, Factor(8), f);
    FactorInverse();
    ScaleOne(f);
  }

  /** ntt(inverseNTT(g)) = g. */
  lemma TransformOfInverseTransform(g: Polynomial)
    requires |g| == 256
    ensures Transform(InverseTransform(g)) == g
  {
    hide *;
    TopNode();
    InverseTransformUnfold(g);
    TransformUnfold(InverseTransform(g));
    NttScale(16382, InverseNtt(g, 1, 8), 1, 8);
    NttOfInverse(g, 1, 8);
    ScaleScale(16382, Factor(8), g);
    FactorInverse();
    ScaleOne(g);
  }

  lemma TransformAdd(f: Polynomial, g: Polynomial)
    requires |f| == |g| == 256
    ensures Transform(PolyAdd(f, g)) == PolyAdd(Transform(f), Transform(g))
    ensures Transform(PolySub(f, g)) == PolySub(Transform(f), Transform(g))
  {
    hide *;
    TopNode();
    TransformUnfold(f);
    TransformUnfold(g);
    TransformUnfold(PolyAdd(f, g));
    TransformUnfold(PolySub(f, g));
    NttAdd(f, g, 1, 8);
    NttSub(f, g, 1, 8);
  }

  lemma InverseTransformAdd(f: Polynomial, g: Polynomial)
    requires |f| == |g| == 256
    ensures InverseTransform(PolyAdd(f, g)) == PolyAdd(InverseTransform(f), InverseTransform(g))
    ensures InverseTransform(PolySub(f, g)) == PolySub(InverseTransform(f), InverseTransform(g))
  {
    hide *;
    var a, b := InverseTransform(f), InverseTransform(g);
    TransformOfInverseTransform(f);
    TransformOfInverseTransform(g);
    TransformAdd(a, b);
    InverseTransformOfTransform(PolyAdd(a, b));
    InverseTransformOfTransform(PolySub(a, b));
  }

  /** inverseNTT(nttMul(ntt(f), ntt(g))) is the product in Z_q[X]/(X^256 + 1). */
  lemma TransformedProduct(f: Polynomial, g: Polynomial)
    requires |f| == |g| == 256
    ensures InverseTransform(PointwiseMul(Transform(f), Transform(g))) == Product(f, g)
  {
    hide *;
    TopNode();
    TransformUnfold(f);
    TransformUnfold(g);
    TransformUnfold(Product(f, g));
    NttProduct(f, g);
    InverseTransformOfTransform(Product(f, g));
  }
}
