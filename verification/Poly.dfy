/**
 Polynomials over Z_q as coefficient sequences (constant term first), their
 evaluation, and the product in Z_q[X]/(X^n + 1).
 */
module Poly {
  import opened Field
  import opened FieldRing
  import opened Zetas

  type Polynomial = seq<FieldElement>

  /** An element of the ring, or of its transform: 256 coefficients. */
  predicate RingElement(f: Polynomial)
  {
    |f| == 256
  }

  predicate RingVector(z: seq<Polynomial>)
  {
    forall i :: 0 <= i < |z| ==> RingElement(z[i])
  }

  predicate RingMatrix(a: seq<seq<Polynomial>>, k: nat, l: nat)
  {
    |a| == k && forall i :: 0 <= i < k ==> |a[i]| == l && RingVector(a[i])
  }

  /** polyAdd. */
  function PolyAdd(f: Polynomial, g: Polynomial): (r: Polynomial)
    requires |f| == |g|
    ensures |r| == |f|
    ensures forall i :: 0 <= i < |f| ==> r[i] == Add(f[i], g[i])
  {
    seq(|f|, i requires 0 <= i < |f| => Add(f[i], g[i]))
  }

  /** polySub. */
  function PolySub(f: Polynomial, g: Polynomial): (r: Polynomial)
    requires |f| == |g|
    ensures |r| == |f|
    ensures forall i :: 0 <= i < |f| ==> r[i] == Sub(f[i], g[i])
  {
    seq(|f|, i requires 0 <= i < |f| => Sub(f[i], g[i]))
  }

  /** nttMul: the product coordinate by coordinate. */
  function PointwiseMul(f: Polynomial, g: Polynomial): (r: Polynomial)
    requires |f| == |g|
    ensures |r| == |f|
    ensures forall i :: 0 <= i < |f| ==> r[i] == Mul(f[i], g[i])
  {
    seq(|f|, i requires 0 <= i < |f| => Mul(f[i], g[i]))
  }

  function Scale(c: FieldElement, f: Polynomial): (r: Polynomial)
    ensures |r| == |f|
    ensures forall i :: 0 <= i < |f| ==> r[i] == Mul(c, f[i])
  {
    seq(|f|, i requires 0 <= i < |f| => Mul(c, f[i]))
  }

  function Zero(n: nat): (r: Polynomial)
    ensures |r| == n
    ensures forall i :: 0 <= i < n ==> r[i] == 0
  {
    seq(n, _ => 0)
  }

  /** The value of f at x, by Horner's rule. */
  function Eval(f: Polynomial, x: FieldElement): (r: FieldElement)
  {
    if f == [] then 0 else Add(f[0], Mul(x, Eval(f[1..], x)))
  }

  //////////////////////////////////////////////////////////////////////////////
  // Evaluation is linear
  //////////////////////////////////////////////////////////////////////////////

  lemma AddSwap(a: FieldElement, b: FieldElement, c: FieldElement, d: FieldElement)
    ensures Add(Add(a, b), Add(c, d)) == Add(Add(a, c), Add(b, d))
  {
    hide *;
    AddAssociates(a, b, Add(c, d));
    AddAssociates(b, c, d);
    AddCommutes(b, c);
    AddAssociates(c, b, d);
    AddAssociates(a, c, Add(b, d));
  }

  lemma {:induction false} EvalAdd(f: Polynomial, g: Polynomial, x: FieldElement)
    requires |f| == |g|
    ensures Eval(PolyAdd(f, g), x) == Add(Eval(f, x), Eval(g, x))
  {
    hide Add, Mul, PolyAdd;
    if f == [] {
      AddZero(0);
    } else {
      var ef, eg := Eval(f[1..], x), Eval(g[1..], x);
      EvalAdd(f[1..], g[1..], x);
      assert PolyAdd(f, g)[1..] == PolyAdd(f[1..], g[1..]);
      MulDistributes(x, ef, eg);
      AddSwap(f[0], g[0], Mul(x, ef), Mul(x, eg));
    }
  }

  lemma {:induction false} EvalScale(c: FieldElement, f: Polynomial, x: FieldElement)
    ensures Eval(Scale(c, f), x) == Mul(c, Eval(f, x))
  {
    hide Add, Mul, Scale;
    if f == [] {
      MulZero(c);
    } else {
      var ef := Eval(f[1..], x);
      EvalScale(c, f[1..], x);
      assert Scale(c, f)[1..] == Scale(c, f[1..]);
      MulDistributes(c, f[0], Mul(x, ef));
      MulAssociates(x, c, ef);
      MulCommutes(x, c);
      MulAssociates(c, x, ef);
    }
  }

  /** Subtraction is addition of the negative, coordinate by coordinate. */
  lemma PolySubIsAdd(f: Polynomial, g: Polynomial)
    requires |f| == |g|
    ensures PolySub(f, g) == PolyAdd(f, Scale(MINUS_ONE, g))
  {
    hide *;
    forall i | 0 <= i < |f|
      ensures PolySub(f, g)[i] == PolyAdd(f, Scale(MINUS_ONE, g))[i]
    {
      MulMinusOne(g[i]);
      SubIsAddNeg(f[i], g[i]);
    }
  }

  lemma EvalSub(f: Polynomial, g: Polynomial, x: FieldElement)
    requires |f| == |g|
    ensures Eval(PolySub(f, g), x) == Sub(Eval(f, x), Eval(g, x))
  {
    hide *;
    PolySubIsAdd(f, g);
    EvalAdd(f, Scale(MINUS_ONE, g), x);
    EvalScale(MINUS_ONE, g, x);
    MulMinusOne(Eval(g, x));
    SubIsAddNeg(Eval(f, x), Eval(g, x));
  }

  lemma {:induction false} EvalConcat(f: Polynomial, g: Polynomial, x: FieldElement)
    ensures Eval(f + g, x) == Add(Eval(f, x), Mul(Pow(x, |f|), Eval(g, x)))
  {
    hide Add, Mul;
    var eg := Eval(g, x);
    if f == [] {
      assert f + g == g;
      MulOne(eg);
      AddZero(eg);
    } else {
      var ef, p := Eval(f[1..], x), Pow(x, |f| - 1);
      EvalConcat(f[1..], g, x);
      assert (f + g)[1..] == f[1..] + g;
      assert (f + g)[0] == f[0];
      MulDistributes(x, ef, Mul(p, eg));
      MulAssociates(x, p, eg);
      AddAssociates(f[0], Mul(x, ef), Mul(Mul(x, p), eg));
    }
  }

  lemma {:induction false} EvalZero(n: nat, x: FieldElement)
    ensures Eval(Zero(n), x) == 0
  {
    hide Add, Mul;
    if n > 0 {
      EvalZero(n - 1, x);
      assert Zero(n)[1..] == Zero(n - 1);
      MulZero(x);
      AddZero(0);
    }
  }

  //////////////////////////////////////////////////////////////////////////////
  // Multiplication modulo X^n + 1
  //////////////////////////////////////////////////////////////////////////////

  /** X * f modulo X^n + 1: a rotation with a change of sign. */
  function MulX(f: Polynomial): (r: Polynomial)
    requires |f| >= 1
    ensures |r| == |f|
  {
    [Neg(f[|f| - 1])] + f[..|f| - 1]
  }

  /** f * g modulo X^n + 1, n = |g|: the sum of the f[i] * X^i * g. */
  function Product(f: Polynomial, g: Polynomial): (r: Polynomial)
    requires |g| >= 1
    ensures |r| == |g|
  {
    if f == [] then Zero(|g|)
    else PolyAdd(Scale(f[0], g), MulX(Product(f[1..], g)))
  }

  /** At a root of X^n + 1 the rotation multiplies by x. */
  lemma EvalMulX(f: Polynomial, x: FieldElement)
    requires |f| >= 1 && Pow(x, |f|) == MINUS_ONE
    ensures Eval(MulX(f), x) == Mul(x, Eval(f, x))
  {
    hide Add, Mul, Sub, Pow;
    var n := |f| - 1;
    var low, last := f[..n], f[n];
    var el, p := Eval(low, x), Pow(x, n);
    assert f == low + [last];
    EvalConcat(low, [last], x);
    EvalSingleton(last, x);
    MulDistributes(x, el, Mul(p, last));
    MulAssociates(x, p, last);
    PowStep(x, n);
    MulMinusOne(last);
    AddCommutes(Mul(x, el), Neg(last));
    assert MulX(f)[1..] == low;
  }

  lemma EvalSingleton(a: FieldElement, x: FieldElement)
    ensures Eval([a], x) == a
  {
    hide Add, Mul;
    assert [a][1..] == [];
    MulZero(x);
    AddZero(a);
  }

  lemma PowStep(x: FieldElement, e: nat)
    ensures Pow(x, e + 1) == Mul(x, Pow(x, e))
  {
    hide Mul;
  }

  /** Evaluation at a root of X^n + 1 is multiplicative. */
  lemma {:induction false} EvalProduct(f: Polynomial, g: Polynomial, x: FieldElement)
    requires |g| >= 1 && Pow(x, |g|) == MINUS_ONE
    ensures Eval(Product(f, g), x) == Mul(Eval(f, x), Eval(g, x))
  {
    hide Add, Mul, MulX, Pow;
    var eg := Eval(g, x);
    if f == [] {
      EvalZero(|g|, x);
      MulZero(eg);
    } else {
      var rest := Product(f[1..], g);
      var ef := Eval(f[1..], x);
      EvalProduct(f[1..], g, x);
      EvalAdd(Scale(f[0], g), MulX(rest), x);
      EvalScale(f[0], g, x);
      EvalMulX(rest, x);
      MulAssociates(x, ef, eg);
      MulDistributes(eg, f[0], Mul(x, ef));
      MulCommutes(eg, f[0]);
      MulCommutes(eg, Mul(x, ef));
      MulCommutes(eg, Add(f[0], Mul(x, ef)));
    }
  }

  //////////////////////////////////////////////////////////////////////////////
  // The convolution formula
  //////////////////////////////////////////////////////////////////////////////

  /** Coefficient k of X^j * g modulo X^n + 1, for j < n. */
  function Rotated(g: Polynomial, j: nat, k: nat): (r: FieldElement)
    requires j <= |g| && k < |g|
  {
    if k >= j then g[k - j] else Neg(g[|g| + k - j])
  }

  /** The sum of f[i] times coefficient k of X^(j+i) * g. */
  function Convolution(f: Polynomial, g: Polynomial, j: nat, k: nat): (r: FieldElement)
    requires j + |f| <= |g| && k < |g|
    decreases |f|
  {
    if f == [] then 0
    else Add(Mul(f[0], Rotated(g, j, k)), Convolution(f[1..], g, j + 1, k))
  }

  lemma {:induction false} NegConvolution(f: Polynomial, g: Polynomial, j: nat)
    requires j + |f| < |g|
    ensures Convolution(f, g, j + 1, 0) == Neg(Convolution(f, g, j, |g| - 1))
    decreases |f|
  {
    hide Add, Mul, Sub;
    if f == [] {
      AddNeg(0);
      AddZero(Neg(0));
    } else {
      var a, b := Rotated(g, j, |g| - 1), Convolution(f[1..], g, j + 1, |g| - 1);
      NegConvolution(f[1..], g, j + 1);
      MulNeg(f[0], a);
      NegSum(Mul(f[0], a), b);
    }
  }

  lemma NegSum(a: FieldElement, b: FieldElement)
    ensures Add(Neg(a), Neg(b)) == Neg(Add(a, b))
  {
    hide *;
    AddSwap(a, b, Neg(a), Neg(b));
    AddNeg(a);
    AddNeg(b);
    AddZero(0);
    NegUnique(Add(a, b), Add(Neg(a), Neg(b)));
  }

  lemma {:induction false} ShiftConvolution(f: Polynomial, g: Polynomial, j: nat, k: nat)
    requires j + |f| < |g| && 1 <= k < |g|
    ensures Convolution(f, g, j + 1, k) == Convolution(f, g, j, k - 1)
    decreases |f|
  {
    hide Add, Mul, Sub;
    if f != [] {
      ShiftConvolution(f[1..], g, j + 1, k);
    }
  }

  lemma ProductStep(f: Polynomial, g: Polynomial, k: nat)
    requires f != [] && k < |g|
    ensures var rest := Product(f[1..], g);
            Product(f, g)[k] == Add(Mul(f[0], g[k]), if k == 0 then Neg(rest[|g| - 1]) else rest[k - 1])
  {
    hide Add, Mul, Sub, PolyAdd, Scale, Zero;
    var rest := Product(f[1..], g);
    assert Product(f, g) == PolyAdd(Scale(f[0], g), MulX(rest));
  }

  /** Coefficient k of the product is the negacyclic convolution of the coefficients. */
  lemma {:induction false} ProductIsConvolution(f: Polynomial, g: Polynomial, k: nat)
    requires |f| <= |g| && k < |g|
    ensures Product(f, g)[k] == Convolution(f, g, 0, k)
    decreases |f|
  {
    hide Add, Mul, Sub, Product;
    if f == [] {
      ProductOfNothing(g);
    } else {
      ProductStep(f, g, k);
      if k == 0 {
        ProductIsConvolution(f[1..], g, |g| - 1);
        NegConvolution(f[1..], g, 0);
      } else {
        ProductIsConvolution(f[1..], g, k - 1);
        ShiftConvolution(f[1..], g, 0, k);
      }
    }
  }

  lemma ProductOfNothing(g: Polynomial)
    requires |g| >= 1
    ensures Product([], g) == Zero(|g|)
  {
  }
}
