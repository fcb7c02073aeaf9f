/**
 internal/mldsa/field.go, ring part: the in-place loops of ntt and inverseNTT,
 with the layers of block length 4, 2 and 1 unrolled and the longer blocks
 unrolled by two, proved to compute the transforms of module NttSpec.
 */
module NttCode {
  import opened Field
  import opened FieldRing
  import opened Zetas
  import opened Poly
  import opened NttSpec
  import opened Blocks

  //////////////////////////////////////////////////////////////////////////////
  // Layers
  //////////////////////////////////////////////////////////////////////////////

  /** The butterflies of one block of 2h coefficients. */
  function ForwardBlockSpec(g: Polynomial, h: nat, z: FieldElement): (r: Polynomial)
    requires |g| == 2 * h
    ensures |r| == 2 * h
  {
    PolyAdd(g[..h], Scale(z, g[h..])) + PolySub(g[..h], Scale(z, g[h..]))
  }

  /** One layer: n blocks of 2h coefficients with the table entries m, m + 1, ... */
  function ForwardLayerSpec(g: Polynomial, h: nat, m: nat, n: nat): (r: Polynomial)
    requires |g| == Span(n, 2 * h) && m + n <= 256
    ensures |r| == |g|
    decreases n
  {
    if n == 0 then []
    else
      BlockCount(n, 2 * h);
      ForwardBlockSpec(g[..2 * h], h, Zeta(m)) + ForwardLayerSpec(g[2 * h..], h, m + 1, n - 1)
  }

  /** The inverse butterflies of one block of 2h coefficients. */
  function InverseBlockSpec(g: Polynomial, h: nat, z: FieldElement): (r: Polynomial)
    requires |g| == 2 * h
    ensures |r| == 2 * h
  {
    PolyAdd(g[..h], g[h..]) + Scale(z, PolySub(g[h..], g[..h]))
  }

  /** One inverse layer: n blocks with the table entries m, m - 1, ... */
  function InverseLayerSpec(g: Polynomial, h: nat, m: int, n: nat): (r: Polynomial)
    requires |g| == Span(n, 2 * h) && n <= m + 1 <= 256
    ensures |r| == |g|
    decreases n
  {
    if n == 0 then []
    else
      BlockCount(n, 2 * h);
      InverseBlockSpec(g[..2 * h], h, Zeta(m)) + InverseLayerSpec(g[2 * h..], h, m - 1, n - 1)
  }

  lemma ForwardLayerUnfold(g: Polynomial, h: nat, m: nat, n: nat)
    requires |g| == Span(n, 2 * h) && m + n <= 256 && n > 0
    ensures Span(n, 2 * h) >= 2 * h && Span(n - 1, 2 * h) == |g| - 2 * h
    ensures ForwardLayerSpec(g, h, m, n)
         == ForwardBlockSpec(g[..2 * h], h, Zeta(m)) + ForwardLayerSpec(g[2 * h..], h, m + 1, n - 1)
  {
    hide Zeta, ForwardBlockSpec;
    BlockCount(n, 2 * h);
  }

  lemma InverseLayerUnfold(g: Polynomial, h: nat, m: int, n: nat)
    requires |g| == Span(n, 2 * h) && n <= m + 1 <= 256 && n > 0
    ensures Span(n, 2 * h) >= 2 * h && Span(n - 1, 2 * h) == |g| - 2 * h
    ensures InverseLayerSpec(g, h, m, n)
         == InverseBlockSpec(g[..2 * h], h, Zeta(m)) + InverseLayerSpec(g[2 * h..], h, m - 1, n - 1)
  {
    hide Zeta, InverseBlockSpec;
    BlockCount(n, 2 * h);
  }

  //////////////////////////////////////////////////////////////////////////////
  // Layers compose to the transforms
  //////////////////////////////////////////////////////////////////////////////

  /** The transforms still to be done when blocks of 2^d coefficients remain at nodes k, k + 1, ... */
  function NttOfBlocks(g: Polynomial, d: nat, k: nat, n: nat): (r: Polynomial)
    requires d <= 8 && |g| == Span(n, Pow2(d)) && Pow2(8 - d) <= k && k + n <= 2 * Pow2(8 - d)
    ensures |r| == |g|
    decreases n
  {
    if n == 0 then []
    else
      BlockCount(n, Pow2(d));
      Ntt(g[..Pow2(d)], k, d) + NttOfBlocks(g[Pow2(d)..], d, k + 1, n - 1)
  }

  lemma NttOfBlocksUnfold(g: Polynomial, d: nat, k: nat, n: nat)
    requires d <= 8 && |g| == Span(n, Pow2(d)) && Pow2(8 - d) <= k && k + n <= 2 * Pow2(8 - d) && n > 0
    ensures Span(n, Pow2(d)) >= Pow2(d) && Span(n - 1, Pow2(d)) == |g| - Pow2(d)
    ensures Node(k, d)
    ensures NttOfBlocks(g, d, k, n) == Ntt(g[..Pow2(d)], k, d) + NttOfBlocks(g[Pow2(d)..], d, k + 1, n - 1)
  {
    hide Ntt, Pow2;
    BlockCount(n, Pow2(d));
  }

  /** Doing one layer leaves the remaining transforms' result unchanged. */
  lemma {:induction false} ForwardLayerStep(g: Polynomial, d: nat, k: nat, n: nat)
    requires 1 <= d <= 8 && |g| == Span(n, Pow2(d)) && Pow2(8 - d) <= k && k + n <= 2 * Pow2(8 - d)
    ensures LayerShape(g, d, k, n)
    ensures NttOfBlocks(ForwardLayerSpec(g, Pow2(d - 1), k, n), d - 1, 2 * k, 2 * n) == NttOfBlocks(g, d, k, n)
    decreases n
  {
    hide *;
    LayerShapes(g, d, k, n);
    var h := Pow2(d - 1);
    if n == 0 {
      SpanZero(Pow2(d));
      EmptyLayer(d, k);
      LengthZero(g);
      LengthZero(ForwardLayerSpec(g, h, k, n));
    } else {
      NttOfBlocksUnfold(g, d, k, n);
      ForwardLayerUnfold(g, h, k, n);
      var block, rest := g[..2 * h], g[2 * h..];
      var done := ForwardBlockSpec(block, h, Zeta(k));
      var layer := ForwardLayerSpec(g, h, k, n);
      var after := ForwardLayerSpec(rest, h, k + 1, n - 1);
      ForwardLayerStep(rest, d, k + 1, n - 1);
      BlockTransform(block, k, d);
      NttOfBlocksUnfold(layer, d - 1, 2 * k, 2 * n);
      assert layer[..h] == done[..h] && layer[h..] == done[h..] + after;
      NttOfBlocksUnfold(layer[h..], d - 1, 2 * k + 1, 2 * n - 1);
      assert layer[h..][..h] == done[h..] && layer[h..][h..] == after;
    }
  }

  lemma LengthZero(f: Polynomial)
    ensures |f| == 0 ==> f == []
  {
  }

  lemma EmptyLayer(d: nat, k: nat)
    requires 1 <= d <= 8 && Pow2(8 - d) <= k <= 2 * Pow2(8 - d) && Pow2(8 - (d - 1)) == 2 * Pow2(8 - d)
    ensures NttOfBlocks([], d, k, 0) == [] && NttOfBlocks([], d - 1, 2 * k, 0) == []
  {
  }

  ghost predicate LayerShape(g: Polynomial, d: nat, k: nat, n: nat)
  {
    && 1 <= d <= 8
    && Pow2(d) == 2 * Pow2(d - 1) && Pow2(8 - (d - 1)) == 2 * Pow2(8 - d)
    && k + n <= 256
    && |g| == Span(n, Pow2(d)) == Span(n, 2 * Pow2(d - 1)) == Span(2 * n, Pow2(d - 1))
    && Pow2(8 - (d - 1)) <= 2 * k && 2 * k + 2 * n <= 2 * Pow2(8 - (d - 1))
  }

  lemma LayerShapes(g: Polynomial, d: nat, k: nat, n: nat)
    requires 1 <= d <= 8 && |g| == Span(n, Pow2(d)) && Pow2(8 - d) <= k && k + n <= 2 * Pow2(8 - d)
    ensures LayerShape(g, d, k, n)
    ensures Pow2(d) == 2 * Pow2(d - 1) && Pow2(8 - (d - 1)) == 2 * Pow2(8 - d)
    ensures k + n <= 256
    ensures |g| == Span(n, Pow2(d)) == Span(n, 2 * Pow2(d - 1)) == Span(2 * n, Pow2(d - 1))
  {
    Pow2Values();
    SpanHalves(n, Pow2(d - 1));
  }

  lemma BlockTransform(block: Polynomial, k: nat, d: nat)
    requires Node(k, d) && d > 0 && |block| == Pow2(d) == 2 * Pow2(d - 1)
    ensures k < 256 && Node(2 * k, d - 1) && Node(2 * k + 1, d - 1)
    ensures var done := ForwardBlockSpec(block, Pow2(d - 1), Zeta(k));
            Ntt(block, k, d) == Ntt(done[..Pow2(d - 1)], 2 * k, d - 1) + Ntt(done[Pow2(d - 1)..], 2 * k + 1, d - 1)
  {
    hide Zeta, Ntt, Pow2, PolyAdd, PolySub, Scale;
    var h := Pow2(d - 1);
    NttUnfold(block, k, d);
    var done := ForwardBlockSpec(block, h, Zeta(k));
    assert done[..h] == PolyAdd(block[..h], Scale(Zeta(k), block[h..]));
    assert done[h..] == PolySub(block[..h], Scale(Zeta(k), block[h..]));
    JoinHalves(Ntt(block, k, d), h);
  }

  /** Blocks of one coefficient are finished. */
  lemma {:induction false} NttOfLeaves(g: Polynomial, k: nat, n: nat)
    requires |g| == Span(n, Pow2(0)) && Pow2(8) <= k && k + n <= 2 * Pow2(8)
    ensures NttOfBlocks(g, 0, k, n) == g
    decreases n
  {
    if n > 0 {
      NttOfLeaves(g[1..], k + 1, n - 1);
      assert g == [g[0]] + g[1..];
    }
  }

  /** The inverse transforms of the blocks of 2^d coefficients at nodes k, k + 1, ... */
  function InverseOfBlocks(g: Polynomial, d: nat, k: nat, n: nat): (r: Polynomial)
    requires d <= 8 && |g| == Span(n, Pow2(d)) && Pow2(8 - d) <= k && k + n <= 2 * Pow2(8 - d)
    ensures |r| == |g|
    decreases n
  {
    if n == 0 then []
    else
      BlockCount(n, Pow2(d));
      InverseNtt(g[..Pow2(d)], k, d) + InverseOfBlocks(g[Pow2(d)..], d, k + 1, n - 1)
  }

  lemma InverseOfBlocksUnfold(g: Polynomial, d: nat, k: nat, n: nat)
    requires d <= 8 && |g| == Span(n, Pow2(d)) && Pow2(8 - d) <= k && k + n <= 2 * Pow2(8 - d) && n > 0
    ensures Span(n, Pow2(d)) >= Pow2(d) && Span(n - 1, Pow2(d)) == |g| - Pow2(d)
    ensures Node(k, d)
    ensures InverseOfBlocks(g, d, k, n)
         == InverseNtt(g[..Pow2(d)], k, d) + InverseOfBlocks(g[Pow2(d)..], d, k + 1, n - 1)
  {
    hide InverseNtt, Pow2;
    BlockCount(n, Pow2(d));
  }

  /** One inverse layer joins the inverse transforms of neighbouring blocks. */
  lemma {:induction false} InverseLayerStep(g: Polynomial, d: nat, k: nat, n: nat)
    requires 1 <= d <= 8 && |g| == Span(n, Pow2(d)) && Pow2(8 - d) <= k && k + n <= 2 * Pow2(8 - d)
    ensures LayerShape(g, d, k, n) && n <= 3 * Pow2(8 - d) - k <= 256
    ensures InverseLayerSpec(InverseOfBlocks(g, d - 1, 2 * k, 2 * n), Pow2(d - 1), 3 * Pow2(8 - d) - 1 - k, n)
         == InverseOfBlocks(g, d, k, n)
    decreases n
  {
    hide *;
    LayerShapes(g, d, k, n);
    MirrorRange(d, k, n);
    var h, m := Pow2(d - 1), 3 * Pow2(8 - d) - 1 - k;
    if n == 0 {
      SpanZero(Pow2(d));
      LengthZero(InverseOfBlocks(g, d, k, n));
      LengthZero(InverseLayerSpec(InverseOfBlocks(g, d - 1, 2 * k, 2 * n), h, m, n));
    } else {
      BlockCount(n, 2 * h);
      var parts := InverseOfBlocks(g, d - 1, 2 * k, 2 * n);
      var block, rest := g[..2 * h], g[2 * h..];
      InverseOfBlocksUnfold(g, d, k, n);
      InversePair(g, d - 1, 2 * k, 2 * n, h);
      assert block[..h] == g[..h] && block[h..] == g[h..2 * h];
      var low, high := InverseNtt(g[..h], 2 * k, d - 1), InverseNtt(g[h..2 * h], 2 * k + 1, d - 1);
      var after := InverseOfBlocks(rest, d - 1, 2 * (k + 1), 2 * (n - 1));
      assert parts[..2 * h] == low + high && parts[2 * h..] == after;
      InverseLayerStep(rest, d, k + 1, n - 1);
      InverseLayerUnfold(parts, h, m, n);
      MirrorIs(k, d);
      BlockInverse(block, k, d, h, m, low, high);
    }
  }

  /** The inverse transforms of the first two blocks, and of the rest. */
  lemma InversePair(g: Polynomial, e: nat, k: nat, n: nat, h: nat)
    requires e <= 8 && h == Pow2(e) && |g| == Span(n, h) && n >= 2
    requires Pow2(8 - e) <= k && k + n <= 2 * Pow2(8 - e)
    ensures Node(k, e) && Node(k + 1, e)
    ensures 2 * h <= |g| && |g| - 2 * h == Span(n - 2, h)
    ensures InverseOfBlocks(g, e, k, n)
         == InverseNtt(g[..h], k, e)
            + (InverseNtt(g[h..2 * h], k + 1, e) + InverseOfBlocks(g[2 * h..], e, k + 2, n - 2))
  {
    hide InverseNtt, InverseOfBlocks, Pow2, Span;
    InverseOfBlocksUnfold(g, e, k, n);
    InverseOfBlocksUnfold(g[h..], e, k + 1, n - 1);
    assert g[h..2 * h] == g[h..][..h] && g[h..][h..] == g[2 * h..];
  }

  lemma MirrorRange(d: nat, k: nat, n: nat)
    requires 1 <= d <= 8 && Pow2(8 - d) <= k && k + n <= 2 * Pow2(8 - d)
    ensures n <= 3 * Pow2(8 - d) - k <= 256
  {
    Pow2Values();
  }

  lemma MirrorIs(k: nat, d: nat)
    requires Node(k, d) && d > 0
    ensures Mirror(k, d) == 3 * Pow2(8 - d) - 1 - k
  {
    hide Pow2, Node;
  }

  lemma BlockInverse(block: Polynomial, k: nat, d: nat, h: nat, m: nat, low: Polynomial, high: Polynomial)
    requires Node(k, d) && d > 0 && |block| == Pow2(d) && |low| == |high| == h == Pow2(d - 1) && |block| == 2 * h
    requires Node(2 * k, d - 1) && low == InverseNtt(block[..h], 2 * k, d - 1)
    requires Node(2 * k + 1, d - 1) && high == InverseNtt(block[h..], 2 * k + 1, d - 1)
    requires m == Mirror(k, d)
    ensures InverseNtt(block, k, d) == InverseBlockSpec(low + high, h, Zeta(m))
  {
    hide Zeta, InverseNtt, Pow2, PolyAdd, PolySub, Scale, Mirror;
    InverseUnfold(block, k, d);
    assert (low + high)[..h] == low && (low + high)[h..] == high;
    JoinHalves(InverseNtt(block, k, d), h);
  }

  lemma {:induction false} InverseOfLeaves(g: Polynomial, k: nat, n: nat)
    requires |g| == Span(n, Pow2(0)) && Pow2(8) <= k && k + n <= 2 * Pow2(8)
    ensures InverseOfBlocks(g, 0, k, n) == g
    decreases n
  {
    if n > 0 {
      InverseOfLeaves(g[1..], k + 1, n - 1);
      assert g == [g[0]] + g[1..];
    }
  }

  //////////////////////////////////////////////////////////////////////////////
  // Butterflies in place
  //////////////////////////////////////////////////////////////////////////////

  function ButterflySpec(a: Polynomial, i: nat, j: nat, zeta: FieldElement): (r: Polynomial)
    requires i < j < |a|
    ensures |r| == |a|
  {
    a[i := Add(a[i], Mul(zeta, a[j]))][j := Sub(a[i], Mul(zeta, a[j]))]
  }

  /** t = zeta * a[j]; a[j] = a[i] - t; a[i] = a[i] + t. */
  method Butterfly(a: array<FieldElement>, i: nat, j: nat, zeta: FieldElement)
    requires i < j < a.Length
    modifies a
    ensures a[..] == ButterflySpec(old(a[..]), i, j, zeta)
  {
    hide Add, Sub, Mul;
    var t := Mul(zeta, a[j]);
    a[j] := Sub(a[i], t);
    a[i] := Add(a[i], t);
  }

  function InverseButterflySpec(a: Polynomial, i: nat, j: nat, zeta: FieldElement): (r: Polynomial)
    requires i < j < |a|
    ensures |r| == |a|
  {
    a[i := Add(a[i], a[j])][j := Mul(zeta, Sub(a[j], a[i]))]
  }

  /** t = a[i]; a[i] = t + a[j]; a[j] = zeta * (a[j] - t). */
  method InverseButterfly(a: array<FieldElement>, i: nat, j: nat, zeta: FieldElement)
    requires i < j < a.Length
    modifies a
    ensures a[..] == InverseButterflySpec(old(a[..]), i, j, zeta)
  {
    hide Add, Sub, Mul, MulSub;
    var t := a[i];
    a[i] := Add(t, a[j]);
    MulSubIsMul(zeta, a[j], t);
    a[j] := MulSub(zeta, a[j], t);
  }

  /** The first j butterflies of the block of 2 * len coefficients from start are done. */
  ghost predicate ForwardProgress(before: Polynomial, now: Polynomial, start: nat, len: nat, j: nat, zeta: FieldElement)
  {
    && |now| == |before| && start + 2 * len <= |before| && j <= len
    && (forall i :: 0 <= i < |before| && !(start <= i < start + j) && !(start + len <= i < start + len + j)
                    ==> now[i] == before[i])
    && (forall i :: start <= i < start + j ==> now[i] == Add(before[i], Mul(zeta, before[i + len])))
    && (forall i :: start + len <= i < start + len + j ==> now[i] == Sub(before[i - len], Mul(zeta, before[i])))
  }

  lemma ForwardProgressStart(before: Polynomial, start: nat, len: nat, zeta: FieldElement)
    requires start + 2 * len <= |before|
    ensures ForwardProgress(before, before, start, len, 0, zeta)
  {
  }

  lemma ForwardProgressStep(before: Polynomial, now: Polynomial, start: nat, len: nat, j: nat, zeta: FieldElement)
    requires ForwardProgress(before, now, start, len, j, zeta) && j < len
    ensures |now| == |before| && start + 2 * len <= |before|
    ensures ForwardProgress(before, ButterflySpec(now, start + j, start + len + j, zeta), start, len, j + 1, zeta)
  {
    hide Add, Sub, Mul;
  }

  lemma ForwardProgressDone(before: Polynomial, now: Polynomial, start: nat, len: nat, zeta: FieldElement)
    requires ForwardProgress(before, now, start, len, len, zeta)
    ensures |now| == |before| && start + 2 * len <= |before|
    ensures now == before[..start] + ForwardBlockSpec(before[start..start + 2 * len], len, zeta)
            + before[start + 2 * len..]
  {
    hide Add, Sub, Mul, PolyAdd, PolySub, Scale, ForwardBlockSpec;
    var block := before[start..start + 2 * len];
    var done := ForwardBlockSpec(block, len, zeta);
    forall i | 0 <= i < 2 * len
      ensures now[start + i] == done[i]
    {
      if i < len {
        ForwardBlockAt(block, len, zeta, i);
        assert now[start + i] == Add(before[start + i], Mul(zeta, before[start + i + len]));
      } else {
        ForwardBlockAt(block, len, zeta, i - len);
        assert now[start + i] == Sub(before[start + i - len], Mul(zeta, before[start + i]));
      }
    }
    SliceReplaced(before, now, start, done);
  }

  lemma ForwardBlockAt(block: Polynomial, len: nat, zeta: FieldElement, i: nat)
    requires |block| == 2 * len && i < len
    ensures ForwardBlockSpec(block, len, zeta)[i] == Add(block[i], Mul(zeta, block[len + i]))
    ensures ForwardBlockSpec(block, len, zeta)[len + i] == Sub(block[i], Mul(zeta, block[len + i]))
  {
    hide Add, Sub, Mul, PolyAdd, PolySub, Scale;
    assert block[..len][i] == block[i] && block[len..][i] == block[len + i];
  }

  lemma SliceReplaced(before: Polynomial, now: Polynomial, start: nat, block: Polynomial)
    requires |now| == |before| && start + |block| <= |before|
    requires forall i :: 0 <= i < |before| && !(start <= i < start + |block|) ==> now[i] == before[i]
    requires forall i :: 0 <= i < |block| ==> now[start + i] == block[i]
    ensures now == before[..start] + block + before[start + |block|..]
  {
    assert now[start..start + |block|] == block;
  }

  /** One block of 2 * len coefficients from start, unrolled by two. */
  method ForwardBlockByTwo(a: array<FieldElement>, start: nat, len: nat, zeta: FieldElement)
    requires len % 2 == 0 && start + 2 * len <= a.Length
    modifies a
    ensures a[..] == old(a[..start]) + ForwardBlockSpec(old(a[start..start + 2 * len]), len, zeta)
            + old(a[start + 2 * len..])
  {
    hide *;
    ghost var before := a[..];
    ForwardProgressStart(before, start, len, zeta);
    var j := 0;
    while j < len
      invariant j % 2 == 0 && 0 <= j <= len
      invariant ForwardProgress(before, a[..], start, len, j, zeta)
    {
      ForwardProgressStep(before, a[..], start, len, j, zeta);
      Butterfly(a, start + j, start + len + j, zeta);
      ForwardProgressStep(before, a[..], start, len, j + 1, zeta);
      Butterfly(a, start + j + 1, start + len + j + 1, zeta);
      j := j + 2;
    }
    ForwardProgressDone(before, a[..], start, len, zeta);
  }

  //////////////////////////////////////////////////////////////////////////////
  // The forward transform
  //////////////////////////////////////////////////////////////////////////////

  /** The unrolled block of length 4. */
  method ForwardBlock4(a: array<FieldElement>, start: nat, zeta: FieldElement)
    requires start + 8 <= a.Length
    modifies a
    ensures a[..] == old(a[..start]) + ForwardBlockSpec(old(a[start..start + 8]), 4, zeta) + old(a[start + 8..])
  {
    hide *;
    ghost var before := a[..];
    ForwardProgressStart(before, start, 4, zeta);
    ForwardProgressStep(before, a[..], start, 4, 0, zeta);
    Butterfly(a, start, start + 4, zeta);
    ForwardProgressStep(before, a[..], start, 4, 1, zeta);
    Butterfly(a, start + 1, start + 5, zeta);
    ForwardProgressStep(before, a[..], start, 4, 2, zeta);
    Butterfly(a, start + 2, start + 6, zeta);
    ForwardProgressStep(before, a[..], start, 4, 3, zeta);
    Butterfly(a, start + 3, start + 7, zeta);
    ForwardProgressDone(before, a[..], start, 4, zeta);
  }

  /** The unrolled block of length 2. */
  method ForwardBlock2(a: array<FieldElement>, start: nat, zeta: FieldElement)
    requires start + 4 <= a.Length
    modifies a
    ensures a[..] == old(a[..start]) + ForwardBlockSpec(old(a[start..start + 4]), 2, zeta) + old(a[start + 4..])
  {
    hide *;
    ghost var before := a[..];
    ForwardProgressStart(before, start, 2, zeta);
    ForwardProgressStep(before, a[..], start, 2, 0, zeta);
    Butterfly(a, start, start + 2, zeta);
    ForwardProgressStep(before, a[..], start, 2, 1, zeta);
    Butterfly(a, start + 1, start + 3, zeta);
    ForwardProgressDone(before, a[..], start, 2, zeta);
  }

  /** The unrolled block of length 1. */
  method ForwardBlock1(a: array<FieldElement>, start: nat, zeta: FieldElement)
    requires start + 2 <= a.Length
    modifies a
    ensures a[..] == old(a[..start]) + ForwardBlockSpec(old(a[start..start + 2]), 1, zeta) + old(a[start + 2..])
  {
    hide *;
    ghost var before := a[..];
    ForwardProgressStart(before, start, 1, zeta);
    ForwardProgressStep(before, a[..], start, 1, 0, zeta);
    Butterfly(a, start, start + 1, zeta);
    ForwardProgressDone(before, a[..], start, 1, zeta);
  }

  /** The block as the layer of length len runs it: short ones unrolled, long ones by two. */
  method ForwardBlock(a: array<FieldElement>, start: nat, len: nat, zeta: FieldElement)
    requires start + 2 * len <= a.Length && (len in {1, 2, 4} || (len > 0 && len % 2 == 0))
    modifies a
    ensures a[..] == old(a[..start]) + ForwardBlockSpec(old(a[start..start + 2 * len]), len, zeta)
            + old(a[start + 2 * len..])
  {
    hide *;
    if len == 4 {
      ForwardBlock4(a, start, zeta);
    } else if len == 2 {
      ForwardBlock2(a, start, zeta);
    } else if len == 1 {
      ForwardBlock1(a, start, zeta);
    } else {
      ForwardBlockByTwo(a, start, len, zeta);
    }
  }

  lemma SpanPositive(n: nat, s: nat)
    requires s > 0 && Span(n, s) == 0
    ensures n == 0
  {
  }

  /** Replacing the slice of s coefficients from start, seen from the next position. */
  lemma AdvanceLayer(before: Polynomial, after: Polynomial, start: nat, s: nat, block: Polynomial)
    requires start + s <= |before| && |block| == s
    requires after == before[..start] + block + before[start + s..]
    ensures |after| == |before|
    ensures after[..start + s] == before[..start] + block
    ensures after[start + s..] == before[start..][s..] && before[start..][..s] == before[start..start + s]
  {
  }

  /** One block further: what is done and what is left of a layer. */
  lemma ForwardAdvance(before: Polynomial, after: Polynomial, start: nat, h: nat, m: nat, n: nat)
    requires start + 2 * h <= |before| && |before| - start == Span(n, 2 * h) && m + n <= 256 && n > 0 && m < 256
    requires after == before[..start] + ForwardBlockSpec(before[start..start + 2 * h], h, Zeta(m))
             + before[start + 2 * h..]
    ensures |after| == |before| && |after| - (start + 2 * h) == Span(n - 1, 2 * h)
    ensures after[..start + 2 * h] + ForwardLayerSpec(after[start + 2 * h..], h, m + 1, n - 1)
         == before[..start] + ForwardLayerSpec(before[start..], h, m, n)
  {
    hide *;
    ForwardLayerUnfold(before[start..], h, m, n);
    AdvanceLayer(before, after, start, 2 * h, ForwardBlockSpec(before[start..start + 2 * h], h, Zeta(m)));
  }

  /** One layer: the loop over start for block length len; the shortest blocks are unrolled. */
  method ForwardLayer(a: array<FieldElement>, len: nat, m: nat, ghost n: nat) returns (last: nat)
    requires a.Length == 256 && (len in {1, 2, 4} || (len > 0 && len % 2 == 0))
    requires 256 == Span(n, 2 * len) && m + 1 + n <= 256
    modifies a
    ensures last == m + n && a[..] == ForwardLayerSpec(old(a[..]), len, m + 1, n)
  {
    hide *;
    ghost var before, left: nat := a[..], n;
    var start := 0;
    last := m;
    assert a[0..] == before && a[..0] == [];
    while start < 256
      invariant left <= n && 0 <= start <= 256 && 256 - start == Span(left, 2 * len) && last == m + n - left
      invariant a[..start] + ForwardLayerSpec(a[start..], len, last + 1, left)
                == ForwardLayerSpec(before, len, m + 1, n)
      decreases 256 - start
    {
      SpanZero(2 * len);
      last := last + 1;
      ghost var now := a[..];
      assert now[..start] == a[..start] && now[start..] == a[start..];
      BlockCount(left, 2 * len);
      var zeta := Zeta(last);
      ForwardBlock(a, start, len, zeta);
      ForwardAdvance(now, a[..], start, len, last, left);
      start := start + 2 * len;
      left := left - 1;
    }
    SpanPositive(left, 2 * len);
    LengthZero(ForwardLayerSpec(a[start..], len, last + 1, left));
  }

  lemma WholeSpan(d: nat)
    requires d <= 8
    ensures Span(Pow2(8 - d), Pow2(d)) == 256 && Pow2(8 - d) <= 256
    decreases 8 - d
  {
    Pow2Values();
    if d == 8 {
      SpanZero(256);
      BlockCount(1, 256);
    } else {
      WholeSpan(d + 1);
      SpanHalves(Pow2(8 - (d + 1)), Pow2(d));
    }
  }

  /** The result of the transform when the layers above height d are done. */
  function Remaining(g: Polynomial, d: nat): (r: Polynomial)
    requires |g| == 256 && d <= 8
    ensures |r| == 256
  {
    WholeSpan(d);
    NttOfBlocks(g, d, Pow2(8 - d), Pow2(8 - d))
  }

  lemma RemainingStart(g: Polynomial)
    requires |g| == 256
    ensures Remaining(g, 8) == Transform(g)
  {
    hide Ntt, NttOfBlocks;
    Pow2Values();
    WholeSpan(8);
    NttOfBlocksUnfold(g, 8, 1, 1);
    LengthZero(NttOfBlocks(g[256..], 8, 2, 0));
    assert g[..256] == g;
  }

  lemma RemainingEnd(g: Polynomial)
    requires |g| == 256
    ensures Remaining(g, 0) == g
  {
    hide NttOfBlocks;
    Pow2Values();
    WholeSpan(0);
    NttOfLeaves(g, 256, 256);
  }

  lemma RemainingStep(g: Polynomial, d: nat)
    requires |g| == 256 && 1 <= d <= 8
    ensures 256 == Span(Pow2(8 - d), 2 * Pow2(d - 1)) && 2 * Pow2(8 - d) <= 256
    ensures Remaining(ForwardLayerSpec(g, Pow2(d - 1), Pow2(8 - d), Pow2(8 - d)), d - 1) == Remaining(g, d)
  {
    hide NttOfBlocks, ForwardLayerSpec, Span;
    Pow2Values();
    WholeSpan(d);
    WholeSpan(d - 1);
    ForwardLayerStep(g, d, Pow2(8 - d), Pow2(8 - d));
  }

  /** ntt: the value returned for f is its number-theoretic transform. */
  method Ntt256(f: Polynomial) returns (g: Polynomial)
    requires |f| == 256
    ensures g == Transform(f)
  {
    hide *;
    Pow2Values();
    var a := new FieldElement[256](i requires 0 <= i < 256 => f[i]);
    assert a[..] == f;
    RemainingStart(f);
    var m, len := 0, 128;
    ghost var d := 8;
    while len >= 8
      invariant 3 <= d <= 8 && len == Pow2(d - 1) && m == Pow2(8 - d) - 1
      invariant Remaining(a[..], d) == Transform(f)
      decreases len
    {
      RemainingStep(a[..], d);
      m := ForwardLayer(a, len, m, Pow2(8 - d));
      len := len / 2;
      d := d - 1;
    }
    assert d == 3;
    RemainingStep(a[..], 3);
    m := ForwardLayer(a, 4, m, 32);
    RemainingStep(a[..], 2);
    m := ForwardLayer(a, 2, m, 64);
    RemainingStep(a[..], 1);
    m := ForwardLayer(a, 1, m, 128);
    RemainingEnd(a[..]);
    g := a[..];
  }

  //////////////////////////////////////////////////////////////////////////////
  // The inverse transform
  //////////////////////////////////////////////////////////////////////////////

  /** The first j inverse butterflies of the block of 2 * len coefficients from start are done. */
  ghost predicate InverseProgress(before: Polynomial, now: Polynomial, start: nat, len: nat, j: nat, zeta: FieldElement)
  {
    && |now| == |before| && start + 2 * len <= |before| && j <= len
    && (forall i :: 0 <= i < |before| && !(start <= i < start + j) && !(start + len <= i < start + len + j)
                    ==> now[i] == before[i])
    && (forall i :: start <= i < start + j ==> now[i] == Add(before[i], before[i + len]))
    && (forall i :: start + len <= i < start + len + j ==> now[i] == Mul(zeta, Sub(before[i], before[i - len])))
  }

  lemma InverseProgressStart(before: Polynomial, start: nat, len: nat, zeta: FieldElement)
    requires start + 2 * len <= |before|
    ensures InverseProgress(before, before, start, len, 0, zeta)
  {
  }

  lemma InverseProgressStep(before: Polynomial, now: Polynomial, start: nat, len: nat, j: nat, zeta: FieldElement)
    requires InverseProgress(before, now, start, len, j, zeta) && j < len
    ensures |now| == |before| && start + 2 * len <= |before|
    ensures InverseProgress(before, InverseButterflySpec(now, start + j, start + len + j, zeta), start, len,
                            j + 1, zeta)
  {
    hide Add, Sub, Mul;
  }

  lemma InverseBlockAt(block: Polynomial, len: nat, zeta: FieldElement, i: nat)
    requires |block| == 2 * len && i < len
    ensures InverseBlockSpec(block, len, zeta)[i] == Add(block[i], block[len + i])
    ensures InverseBlockSpec(block, len, zeta)[len + i] == Mul(zeta, Sub(block[len + i], block[i]))
  {
    hide Add, Sub, Mul, PolyAdd, PolySub, Scale;
    assert block[..len][i] == block[i] && block[len..][i] == block[len + i];
  }

  lemma InverseProgressDone(before: Polynomial, now: Polynomial, start: nat, len: nat, zeta: FieldElement)
    requires InverseProgress(before, now, start, len, len, zeta)
    ensures |now| == |before| && start + 2 * len <= |before|
    ensures now == before[..start] + InverseBlockSpec(before[start..start + 2 * len], len, zeta)
            + before[start + 2 * len..]
  {
    hide Add, Sub, Mul, PolyAdd, PolySub, Scale, InverseBlockSpec;
    var block := before[start..start + 2 * len];
    var done := InverseBlockSpec(block, len, zeta);
    forall i | 0 <= i < 2 * len
      ensures now[start + i] == done[i]
    {
      if i < len {
        InverseBlockAt(block, len, zeta, i);
        assert now[start + i] == Add(before[start + i], before[start + i + len]);
      } else {
        InverseBlockAt(block, len, zeta, i - len);
        assert now[start + i] == Mul(zeta, Sub(before[start + i], before[start + i - len]));
      }
    }
    SliceReplaced(before, now, start, done);
  }

  /** One block of 2 * len coefficients from start, unrolled by two. */
  method InverseBlockByTwo(a: array<FieldElement>, start: nat, len: nat, zeta: FieldElement)
    requires len % 2 == 0 && start + 2 * len <= a.Length
    modifies a
    ensures a[..] == old(a[..start]) + InverseBlockSpec(old(a[start..start + 2 * len]), len, zeta)
            + old(a[start + 2 * len..])
  {
    hide *;
    ghost var before := a[..];
    InverseProgressStart(before, start, len, zeta);
    var j := 0;
    while j < len
      invariant j % 2 == 0 && 0 <= j <= len
      invariant InverseProgress(before, a[..], start, len, j, zeta)
    {
      InverseProgressStep(before, a[..], start, len, j, zeta);
      InverseButterfly(a, start + j, start + len + j, zeta);
      InverseProgressStep(before, a[..], start, len, j + 1, zeta);
      InverseButterfly(a, start + j + 1, start + len + j + 1, zeta);
      j := j + 2;
    }
    InverseProgressDone(before, a[..], start, len, zeta);
  }

  /** The unrolled inverse block of length 4. */
  method InverseBlock4(a: array<FieldElement>, start: nat, zeta: FieldElement)
    requires start + 8 <= a.Length
    modifies a
    ensures a[..] == old(a[..start]) + InverseBlockSpec(old(a[start..start + 8]), 4, zeta) + old(a[start + 8..])
  {
    hide *;
    ghost var before := a[..];
    InverseProgressStart(before, start, 4, zeta);
    InverseProgressStep(before, a[..], start, 4, 0, zeta);
    InverseButterfly(a, start, start + 4, zeta);
    InverseProgressStep(before, a[..], start, 4, 1, zeta);
    InverseButterfly(a, start + 1, start + 5, zeta);
    InverseProgressStep(before, a[..], start, 4, 2, zeta);
    InverseButterfly(a, start + 2, start + 6, zeta);
    InverseProgressStep(before, a[..], start, 4, 3, zeta);
    InverseButterfly(a, start + 3, start + 7, zeta);
    InverseProgressDone(before, a[..], start, 4, zeta);
  }

  /** The unrolled inverse block of length 2. */
  method InverseBlock2(a: array<FieldElement>, start: nat, zeta: FieldElement)
    requires start + 4 <= a.Length
    modifies a
    ensures a[..] == old(a[..start]) + InverseBlockSpec(old(a[start..start + 4]), 2, zeta) + old(a[start + 4..])
  {
    hide *;
    ghost var before := a[..];
    InverseProgressStart(before, start, 2, zeta);
    InverseProgressStep(before, a[..], start, 2, 0, zeta);
    InverseButterfly(a, start, start + 2, zeta);
    InverseProgressStep(before, a[..], start, 2, 1, zeta);
    InverseButterfly(a, start + 1, start + 3, zeta);
    InverseProgressDone(before, a[..], start, 2, zeta);
  }

  /** The unrolled inverse block of length 1. */
  method InverseBlock1(a: array<FieldElement>, start: nat, zeta: FieldElement)
    requires start + 2 <= a.Length
    modifies a
    ensures a[..] == old(a[..start]) + InverseBlockSpec(old(a[start..start + 2]), 1, zeta) + old(a[start + 2..])
  {
    hide *;
    ghost var before := a[..];
    InverseProgressStart(before, start, 1, zeta);
    InverseProgressStep(before, a[..], start, 1, 0, zeta);
    InverseButterfly(a, start, start + 1, zeta);
    InverseProgressDone(before, a[..], start, 1, zeta);
  }

  /** The block as the layer of length len runs it: short ones unrolled, long ones by two. */
  method InverseBlock(a: array<FieldElement>, start: nat, len: nat, zeta: FieldElement)
    requires start + 2 * len <= a.Length && (len in {1, 2, 4} || (len > 0 && len % 2 == 0))
    modifies a
    ensures a[..] == old(a[..start]) + InverseBlockSpec(old(a[start..start + 2 * len]), len, zeta)
            + old(a[start + 2 * len..])
  {
    hide *;
    if len == 4 {
      InverseBlock4(a, start, zeta);
    } else if len == 2 {
      InverseBlock2(a, start, zeta);
    } else if len == 1 {
      InverseBlock1(a, start, zeta);
    } else {
      InverseBlockByTwo(a, start, len, zeta);
    }
  }

  /** One block further: what is done and what is left of a layer. */
  lemma InverseAdvance(before: Polynomial, after: Polynomial, start: nat, h: nat, m: nat, n: nat)
    requires start + 2 * h <= |before| && |before| - start == Span(n, 2 * h) && n <= m + 1 <= 256 && n > 0 && m < 256
    requires after == before[..start] + InverseBlockSpec(before[start..start + 2 * h], h, Zeta(m))
             + before[start + 2 * h..]
    ensures |after| == |before| && |after| - (start + 2 * h) == Span(n - 1, 2 * h)
    ensures after[..start + 2 * h] + InverseLayerSpec(after[start + 2 * h..], h, m - 1, n - 1)
         == before[..start] + InverseLayerSpec(before[start..], h, m, n)
  {
    hide *;
    InverseLayerUnfold(before[start..], h, m, n);
    AdvanceLayer(before, after, start, 2 * h, InverseBlockSpec(before[start..start + 2 * h], h, Zeta(m)));
  }

  /** One inverse layer: the table index m counts down. */
  method InverseLayer(a: array<FieldElement>, len: nat, m: nat, ghost n: nat) returns (last: nat)
    requires a.Length == 256 && (len in {1, 2, 4} || (len > 0 && len % 2 == 0))
    requires 256 == Span(n, 2 * len) && n <= m < 256
    modifies a
    ensures last == m - n && a[..] == InverseLayerSpec(old(a[..]), len, m, n)
  {
    hide *;
    ghost var before, left: nat := a[..], n;
    var start := 0;
    last := m;
    assert a[0..] == before && a[..0] == [];
    while start < 256
      invariant left <= n && 0 <= start <= 256 && 256 - start == Span(left, 2 * len) && last == m - n + left
      invariant a[..start] + InverseLayerSpec(a[start..], len, last, left) == InverseLayerSpec(before, len, m, n)
      decreases 256 - start
    {
      SpanZero(2 * len);
      var zeta := Zeta(last);
      ghost var now := a[..];
      assert now[..start] == a[..start] && now[start..] == a[start..];
      BlockCount(left, 2 * len);
      InverseBlock(a, start, len, zeta);
      InverseAdvance(now, a[..], start, len, last, left);
      last := last - 1;
      start := start + 2 * len;
      left := left - 1;
    }
    SpanPositive(left, 2 * len);
    LengthZero(InverseLayerSpec(a[start..], len, last, left));
  }

  /** The blocks of 2^d coefficients, each inversely transformed. */
  function Joined(g: Polynomial, d: nat): (r: Polynomial)
    requires |g| == 256 && d <= 8
    ensures |r| == 256
  {
    WholeSpan(d);
    InverseOfBlocks(g, d, Pow2(8 - d), Pow2(8 - d))
  }

  lemma JoinedStart(g: Polynomial)
    requires |g| == 256
    ensures Joined(g, 0) == g
  {
    hide InverseOfBlocks;
    Pow2Values();
    WholeSpan(0);
    InverseOfLeaves(g, 256, 256);
  }

  lemma JoinedEnd(g: Polynomial)
    requires |g| == 256
    ensures InverseTransform(g) == Scale(16382, Joined(g, 8))
  {
    hide InverseNtt, InverseOfBlocks, Scale;
    Pow2Values();
    WholeSpan(8);
    InverseOfBlocksUnfold(g, 8, 1, 1);
    LengthZero(InverseOfBlocks(g[256..], 8, 2, 0));
    assert g[..256] == g;
  }

  lemma JoinedStep(g: Polynomial, d: nat)
    requires |g| == 256 && 1 <= d <= 8
    ensures 256 == Span(Pow2(8 - d), 2 * Pow2(d - 1)) && 2 * Pow2(8 - d) <= 256
    ensures InverseLayerSpec(Joined(g, d - 1), Pow2(d - 1), 2 * Pow2(8 - d) - 1, Pow2(8 - d)) == Joined(g, d)
  {
    hide InverseOfBlocks, InverseLayerSpec, Span;
    Pow2Values();
    WholeSpan(d);
    WholeSpan(d - 1);
    InverseLayerStep(g, d, Pow2(8 - d), Pow2(8 - d));
  }

  /** inverseNTT: the value returned for g is its inverse transform. */
  method InverseNtt256(g: Polynomial) returns (f: Polynomial)
    requires |g| == 256
    ensures f == InverseTransform(g)
  {
    hide *;
    Pow2Values();
    var a := new FieldElement[256](i requires 0 <= i < 256 => g[i]);
    assert a[..] == g;
    JoinedStart(g);
    var m := 255;
    JoinedStep(g, 1);
    m := InverseLayer(a, 1, m, 128);
    JoinedStep(g, 2);
    m := InverseLayer(a, 2, m, 64);
    JoinedStep(g, 3);
    m := InverseLayer(a, 4, m, 32);
    var len := 8;
    ghost var d := 4;
    while len < 256
      invariant 4 <= d <= 9 && len == Pow2(d - 1) && m == Pow2(9 - d) - 1
      invariant a[..] == Joined(g, d - 1)
      decreases 256 - len
    {
      LayerPowers(d);
      JoinedStep(g, d);
      m := InverseLayer(a, len, m, Pow2(8 - d));
      len := len * 2;
      d := d + 1;
    }
    LayerPowers(8);
    assert d == 9;
    JoinedEnd(g);
    ghost var joined := a[..];
    var i := 0;
    while i < 256
      invariant 0 <= i <= 256
      invariant forall k :: 0 <= k < i ==> a[k] == Mul(16382, joined[k])
      invariant forall k :: i <= k < 256 ==> a[k] == joined[k]
    {
      MulCommutes(a[i], 16382);
      a[i] := Mul(a[i], 16382);
      i := i + 1;
    }
    f := a[..];
    assert f == Scale(16382, joined);
  }

  lemma LayerPowers(d: nat)
    requires 4 <= d <= 9
    ensures d <= 8 ==> Pow2(9 - d) == 2 * Pow2(8 - d)
    ensures Pow2(d) == 2 * Pow2(d - 1)
    ensures Pow2(d - 1) == 256 <==> d == 9
  {
    Pow2Values();
  }
}
