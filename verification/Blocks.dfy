/** Lengths of sequences made of equal blocks, without multiplication. */
module Blocks {
  /** The length of n blocks of s elements. */
  function Span(n: nat, s: nat): (r: nat)
  {
    if n == 0 then 0 else s + Span(n - 1, s)
  }

  lemma BlockCount(n: nat, s: nat)
    requires n > 0
    ensures Span(n, s) == s + Span(n - 1, s)
  {
  }

  lemma SpanZero(s: nat)
    ensures Span(0, s) == 0
  {
  }

  lemma {:induction false} SpanHalves(n: nat, h: nat)
    ensures Span(n, 2 * h) == Span(2 * n, h)
  {
    if n > 0 {
      SpanHalves(n - 1, h);
      BlockCount(2 * n, h);
      BlockCount(2 * n - 1, h);
    }
  }

  lemma {:induction false} SpanProduct(n: nat, s: nat)
    ensures Span(n, s) == n * s
  {
    if n > 0 {
      SpanProduct(n - 1, s);
      assert n * s == (n - 1) * s + s;
    }
  }

  lemma {:induction false} SpanGrows(n: nat, m: nat, s: nat)
    requires n <= m
    ensures Span(n, s) <= Span(m, s)
    decreases m
  {
    if n < m {
      SpanGrows(n, m - 1, s);
    }
  }
}
