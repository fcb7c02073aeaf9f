/**
 internal/mldsa/field.go: sampleInBall (section 7.3 of FIPS 204), and the bound
 on the products of its challenges, on which sign and verify rest.
 */
module Challenge {
  import opened Field
  import opened FieldRing
  import opened Zetas
  import opened Poly
  import opened Bytes
  import opened Packing
  import opened Hints
  import opened Sampling

  //////////////////////////////////////////////////////////////////////////////
  // Weight
  //////////////////////////////////////////////////////////////////////////////

  /** Coefficients 0, 1 and -1 only. */
  predicate Ternary(c: Polynomial)
  {
    forall i :: 0 <= i < |c| ==> c[i] == 0 || c[i] == ONE || c[i] == MINUS_ONE
  }

  function Nonzero(x: FieldElement): (n: nat)
  {
    if x == 0 then 0 else 1
  }

  /** The number of nonzero coefficients. */
  function Weight(c: Polynomial): (n: nat)
  {
    if c == [] then 0 else Nonzero(c[0]) + Weight(c[1..])
  }

  lemma {:induction false} WeightUpdate(c: Polynomial, i: nat, x: FieldElement)
    requires i < |c|
    ensures Weight(c[i := x]) == Weight(c) - Nonzero(c[i]) + Nonzero(x)
    decreases |c|
  {
    var d := c[i := x];
    if i == 0 {
      assert d[1..] == c[1..];
    } else {
      WeightUpdate(c[1..], i - 1, x);
      assert d[1..] == c[1..][i - 1 := x];
    }
  }

  lemma {:induction false} WeightZero(n: nat)
    ensures Weight(Zero(n)) == 0
  {
    if n > 0 {
      WeightZero(n - 1);
      assert Zero(n)[1..] == Zero(n - 1);
    }
  }

  //////////////////////////////////////////////////////////////////////////////
  // sampleInBall
  //////////////////////////////////////////////////////////////////////////////

  datatype BallState = Ball(c: Polynomial, pos: nat) | Starved

  /** The first position from pos on whose byte is at most i, or limit. */
  function NextIndex(stream: nat -> byte, pos: nat, i: nat, limit: nat): (q: nat)
    ensures q < limit ==> pos <= q && stream(q) <= i
    ensures q < limit ==> forall t :: pos <= t < q ==> stream(t) > i
    ensures q >= limit ==> q == limit || q == pos
    decreases limit - pos
  {
    if pos >= limit then pos
    else if stream(pos) <= i then pos
    else NextIndex(stream, pos + 1, i, limit)
  }

  /** The sign bits: bit n of the first eight bytes, little-endian. */
  function Sign(stream: nat -> byte, n: nat): (x: FieldElement)
    ensures x == ONE || x == MINUS_ONE
  {
    if (stream(n / 8) / Pow2(n % 8)) % 2 == 0 then ONE else MINUS_ONE
  }

  /** c[i] = c[j]; c[j] = x. */
  function Swap(c: Polynomial, i: nat, j: nat, x: FieldElement): (d: Polynomial)
    requires i < |c| && j < |c|
    ensures |d| == |c|
  {
    c[i := c[j]][j := x]
  }

  /** The challenge and the stream position after n of the tau rounds. */
  function Rounds(stream: nat -> byte, tau: nat, n: nat, limit: nat): (r: BallState)
    requires n <= tau <= 64
    ensures r.Ball? ==> |r.c| == 256
  {
    if n == 0 then Ball(Zero(256), 8)
    else
      var before := Rounds(stream, tau, n - 1, limit);
      if before.Starved? then Starved
      else
        var i := 256 - tau + n - 1;
        var q := NextIndex(stream, before.pos, i, limit);
        if q >= limit then Starved
        else
          Ball(Swap(before.c, i, stream(q), Sign(stream, n - 1)), q + 1)
  }

  function BallOf(stream: nat -> byte, tau: nat, limit: nat): (r: Sampled)
    requires tau <= 64
    ensures r.Sampled? ==> |r.f| == 256
  {
    var r := Rounds(stream, tau, tau, limit);
    if r.Starved? then Exhausted else Sampled(r.c)
  }

  lemma RoundsUnfold(stream: nat -> byte, tau: nat, n: nat, limit: nat)
    requires 0 < n <= tau <= 64
    ensures var before := Rounds(stream, tau, n - 1, limit);
            var i := 256 - tau + n - 1;
            Rounds(stream, tau, n, limit) ==
            if before.Starved? then Starved
            else
              var q := NextIndex(stream, before.pos, i, limit);
              if q >= limit then Starved
              else Ball(Swap(before.c, i, stream(q), Sign(stream, n - 1)), q + 1)
  {
    hide NextIndex, Sign, Swap;
  }

  /** One round moves coefficient j to i and sets j: one more nonzero coefficient. */
  lemma RoundWeight(c: Polynomial, i: nat, j: nat, x: FieldElement)
    requires |c| == 256 && j <= i < 256 && Ternary(c) && (x == ONE || x == MINUS_ONE)
    requires forall k :: i <= k < 256 ==> c[k] == 0
    ensures var d := Swap(c, i, j, x);
            && Ternary(d) && Weight(d) == Weight(c) + 1
            && forall k :: i < k < 256 ==> d[k] == 0
  {
    hide Weight;
    WeightUpdate(c, i, c[j]);
    WeightUpdate(c[i := c[j]], j, x);
  }

  lemma {:induction false} RoundsInvariant(stream: nat -> byte, tau: nat, n: nat, limit: nat)
    requires n <= tau <= 64
    ensures var r := Rounds(stream, tau, n, limit);
            r.Ball? ==> Ternary(r.c) && Weight(r.c) == n && forall k :: 256 - tau + n <= k < 256 ==> r.c[k] == 0
  {
    hide Weight, Rounds, Ternary, NextIndex, Sign, Swap;
    if n == 0 {
      FirstRound(stream, tau, limit);
    } else {
      RoundsInvariant(stream, tau, n - 1, limit);
      RoundsUnfold(stream, tau, n, limit);
      var before := Rounds(stream, tau, n - 1, limit);
      if before.Ball? {
        var i := 256 - tau + n - 1;
        var q := NextIndex(stream, before.pos, i, limit);
        if q < limit {
          RoundWeight(before.c, i, stream(q), Sign(stream, n - 1));
        }
      }
    }
  }

  lemma FirstRound(stream: nat -> byte, tau: nat, limit: nat)
    requires tau <= 64
    ensures Rounds(stream, tau, 0, limit) == Ball(Zero(256), 8)
    ensures Ternary(Zero(256)) && Weight(Zero(256)) == 0
  {
    hide Weight;
    WeightZero(256);
  }

  /** Exactly tau nonzero coefficients, each 1 or -1, for every stream. */
  lemma BallWeight(stream: nat -> byte, tau: nat, limit: nat)
    requires tau <= 64
    ensures var r := BallOf(stream, tau, limit);
            r.Sampled? ==> Ternary(r.f) && Weight(r.f) == tau
  {
    hide Weight, Rounds, Ternary;
    RoundsInvariant(stream, tau, tau, limit);
  }

  /** A larger limit never changes a challenge. */
  lemma {:induction false} RoundsLimit(stream: nat -> byte, tau: nat, n: nat, limit: nat, limit': nat)
    requires n <= tau <= 64 && limit <= limit'
    ensures var r := Rounds(stream, tau, n, limit); r.Ball? ==> Rounds(stream, tau, n, limit') == r
  {
    hide NextIndex, Sign, Rounds, Swap;
    if n == 0 {
      FirstRound(stream, tau, limit);
      FirstRound(stream, tau, limit');
    } else {
      RoundsLimit(stream, tau, n - 1, limit, limit');
      RoundsUnfold(stream, tau, n, limit);
      RoundsUnfold(stream, tau, n, limit');
      var before := Rounds(stream, tau, n - 1, limit);
      if before.Ball? {
        NextIndexLimit(stream, before.pos, 256 - tau + n - 1, limit, limit');
      }
    }
  }

  lemma {:induction false} NextIndexLimit(stream: nat -> byte, pos: nat, i: nat, limit: nat, limit': nat)
    requires limit <= limit'
    ensures var q := NextIndex(stream, pos, i, limit); q < limit ==> NextIndex(stream, pos, i, limit') == q
    decreases limit - pos
  {
    if pos < limit && stream(pos) > i {
      NextIndexLimit(stream, pos + 1, i, limit, limit');
    }
  }

  lemma BallLimit(stream: nat -> byte, tau: nat, limit: nat, limit': nat)
    requires tau <= 64 && limit <= limit' && BallOf(stream, tau, limit).Sampled?
    ensures BallOf(stream, tau, limit') == BallOf(stream, tau, limit)
  {
    hide Rounds;
    RoundsLimit(stream, tau, tau, limit, limit');
  }

  lemma {:induction false} StarvedStays(stream: nat -> byte, tau: nat, n: nat, m: nat, limit: nat)
    requires n <= m <= tau <= 64 && Rounds(stream, tau, n, limit).Starved?
    ensures Rounds(stream, tau, m, limit).Starved?
    decreases m
  {
    hide NextIndex, Sign, Rounds, Swap;
    if n < m {
      StarvedStays(stream, tau, n, m - 1, limit);
      RoundsUnfold(stream, tau, m, limit);
    }
  }

  /** The inner loop of sampleInBall: skips the bytes above i. */
  method FindIndex(stream: nat -> byte, start: nat, i: nat, limit: nat) returns (q: nat)
    ensures q == NextIndex(stream, start, i, limit)
  {
    q := start;
    while q < limit && stream(q) > i
      invariant start <= q
      invariant NextIndex(stream, start, i, limit) == NextIndex(stream, q, i, limit)
      decreases limit - q
    {
      q := q + 1;
    }
  }

  /** One round of the loop, from a state already reached. */
  lemma RoundStep(stream: nat -> byte, tau: nat, n: nat, limit: nat, c: Polynomial, pos: nat, i: nat, q: nat)
    requires n < tau <= 64 && i == 256 - tau + n && |c| == 256
    requires Rounds(stream, tau, n, limit) == Ball(c, pos) && q == NextIndex(stream, pos, i, limit)
    ensures q >= limit ==> BallOf(stream, tau, limit) == Exhausted
    ensures q < limit ==> stream(q) <= i
    ensures q < limit ==> Rounds(stream, tau, n + 1, limit) == Ball(Swap(c, i, stream(q), Sign(stream, n)), q + 1)
  {
    hide Rounds, Sign, NextIndex, Swap;
    RoundsUnfold(stream, tau, n + 1, limit);
    if q >= limit {
      StarvedStays(stream, tau, n + 1, tau, limit);
    }
  }

  /** sampleInBall, reading the stream no further than limit. */
  method SampleInBall(stream: nat -> byte, tau: nat, limit: nat) returns (r: Sampled)
    requires tau <= 64
    ensures r == BallOf(stream, tau, limit)
  {
    hide *;
    var c: Polynomial, pos: nat := Zero(256), 8;
    FirstRound(stream, tau, limit);
    var i := 256 - tau;
    while i < 256
      invariant 256 - tau <= i <= 256 && |c| == 256
      invariant Rounds(stream, tau, i + tau - 256, limit) == Ball(c, pos)
    {
      var q := FindIndex(stream, pos, i, limit);
      var bit := i + tau - 256;
      RoundStep(stream, tau, bit, limit, c, pos, i, q);
      if q >= limit {
        return Exhausted;
      }
      var j := stream(q);
      c := Swap(c, i, j, Sign(stream, bit));
      pos := q + 1;
      i := i + 1;
    }
    BallDone(stream, tau, limit);
    return Sampled(c);
  }

  lemma BallDone(stream: nat -> byte, tau: nat, limit: nat)
    requires tau <= 64
    ensures var r := Rounds(stream, tau, tau, limit); r.Ball? ==> BallOf(stream, tau, limit) == Sampled(r.c)
  {
  }

  //////////////////////////////////////////////////////////////////////////////
  // The signs
  //////////////////////////////////////////////////////////////////////////////

  /** The little-endian integer of n bytes of the stream from position at on. */
  function Integer(stream: nat -> byte, at: nat, n: nat): (x: nat)
    decreases n
  {
    if n == 0 then 0 else stream(at) + 256 * Integer(stream, at + 1, n - 1)
  }

  /** Bit n of a number. */
  function Bit(x: nat, n: nat): (b: nat)
    ensures b < 2
  {
    (x / Pow2(n)) % 2
  }

  lemma ByteSplit(n: nat)
    requires n < 8
    ensures Pow2(n) > 0 && Pow2(n) * Pow2(8 - n) == 256 && Pow2(8 - n) % 2 == 0
  {
    Pow2Sum(n, 8 - n);
    EvenPower(8 - n);
    assert n + (8 - n) == 8;
    Pow2Values();
  }

  /** The bits below 8 are those of the first byte. */
  lemma LowBit(x0: nat, y: nat, n: nat)
    requires x0 < 256 && n < 8
    ensures Bit(x0 + 256 * y, n) == Bit(x0, n)
  {
    hide Pow2;
    ByteSplit(n);
    LowQuotient(x0, y, Pow2(n), Pow2(8 - n));
    EvenSum(x0 / Pow2(n), Pow2(8 - n), y);
  }

  lemma EvenPower(n: nat)
    requires n > 0
    ensures Pow2(n) % 2 == 0
  {
  }

  lemma LowQuotient(x0: nat, y: nat, p: nat, t: nat)
    requires p > 0 && p * t == 256
    ensures (x0 + 256 * y) / p == x0 / p + t * y
  {
    assert (p * t) * y == (t * y) * p;
    assert (x0 / p + t * y) * p == (x0 / p) * p + (t * y) * p;
    UniqueQuotient(x0 + 256 * y, x0 / p + t * y, x0 % p, p);
  }

  lemma EvenSum(x: nat, t: nat, y: nat)
    requires t % 2 == 0
    ensures (x + t * y) % 2 == x % 2
  {
    assert t * y == 2 * ((t / 2) * y);
  }

  /** The bits from 8 on are those of the other bytes. */
  lemma HighBit(x0: nat, y: nat, n: nat)
    requires x0 < 256 && n >= 8
    ensures Bit(x0 + 256 * y, n) == Bit(y, n - 8)
  {
    hide Pow2;
    Pow2Sum(n - 8, 8);
    var p := Pow2(n - 8);
    Commute(256, p);
    DivDiv(x0 + 256 * y, 256, p);
    UniqueQuotient(x0 + 256 * y, y, x0, 256);
  }

  lemma {:induction false} BitOfInteger(stream: nat -> byte, at: nat, n: nat, k: nat)
    requires k < 8 * n
    ensures Bit(Integer(stream, at, n), k) == Bit(stream(at + k / 8), k % 8)
    decreases n
  {
    hide Bit;
    if k < 8 {
      LowBit(stream(at), Integer(stream, at + 1, n - 1), k);
    } else {
      HighBit(stream(at), Integer(stream, at + 1, n - 1), k);
      BitOfInteger(stream, at + 1, n - 1, k - 8);
    }
  }

  /** The signs are the bits of the little-endian integer of the first eight bytes. */
  lemma SignIsBit(stream: nat -> byte, n: nat)
    requires n < 64
    ensures Sign(stream, n) == if Bit(Integer(stream, 0, 8), n) == 1 then MINUS_ONE else ONE
  {
    hide Integer, Pow2;
    BitOfInteger(stream, 0, 8, n);
  }

  /**
   One round: the next byte that is at most i names the place j; what was at j moves to i,
   and j gets the sign of the round. Nothing else changes.
   */
  lemma RoundLaw(stream: nat -> byte, tau: nat, n: nat, limit: nat)
    requires n < tau <= 64
    ensures var before, after := Rounds(stream, tau, n, limit), Rounds(stream, tau, n + 1, limit);
            var i := 256 - tau + n;
            && (after.Ball? <==> before.Ball? && exists t :: before.pos <= t < limit && stream(t) <= i)
            && (after.Ball? ==>
                  && before.pos < after.pos <= limit
                  && var j: nat := stream(after.pos - 1);
                     && j <= i && (forall t :: before.pos <= t < after.pos - 1 ==> stream(t) > i)
                     && after.c[j] == (if Bit(Integer(stream, 0, 8), n) == 1 then MINUS_ONE else ONE)
                     && (j != i ==> after.c[i] == before.c[j])
                     && forall k :: 0 <= k < 256 && k != i && k != j ==> after.c[k] == before.c[k])
  {
    hide Rounds, Sign, NextIndex, Integer, Bit;
    RoundsUnfold(stream, tau, n + 1, limit);
    SignIsBit(stream, n);
    var before := Rounds(stream, tau, n, limit);
    if before.Ball? {
      NextIndexFinds(stream, before.pos, 256 - tau + n, limit);
    }
  }

  lemma {:induction false} NextIndexFinds(stream: nat -> byte, pos: nat, i: nat, limit: nat)
    ensures NextIndex(stream, pos, i, limit) < limit <==> exists t :: pos <= t < limit && stream(t) <= i
    decreases limit - pos
  {
    if pos < limit && stream(pos) > i {
      NextIndexFinds(stream, pos + 1, i, limit);
    }
  }

  /** The number of coefficients equal to x. */
  function Occurrences(c: Polynomial, x: FieldElement): (n: nat)
  {
    if c == [] then 0 else (if c[0] == x then 1 else 0) + Occurrences(c[1..], x)
  }

  lemma {:induction false} OccurrencesUpdate(c: Polynomial, i: nat, y: FieldElement, x: FieldElement)
    requires i < |c|
    ensures Occurrences(c[i := y], x) == Occurrences(c, x) - (if c[i] == x then 1 else 0) + (if y == x then 1 else 0)
    decreases |c|
  {
    var d := c[i := y];
    if i == 0 {
      assert d[1..] == c[1..];
    } else {
      OccurrencesUpdate(c[1..], i - 1, y, x);
      assert d[1..] == c[1..][i - 1 := y];
    }
  }

  lemma {:induction false} OccurrencesZero(n: nat)
    ensures Occurrences(Zero(n), MINUS_ONE) == 0
  {
    if n > 0 {
      OccurrencesZero(n - 1);
      assert Zero(n)[1..] == Zero(n - 1);
    }
  }

  /** The number of ones among the first n bits. */
  function OnesBelow(x: nat, n: nat): (m: nat)
  {
    if n == 0 then 0 else OnesBelow(x, n - 1) + Bit(x, n - 1)
  }

  lemma SwapOccurrences(c: Polynomial, i: nat, j: nat, x: FieldElement)
    requires |c| == 256 && j <= i < 256 && c[i] == 0
    ensures Occurrences(Swap(c, i, j, x), MINUS_ONE) == Occurrences(c, MINUS_ONE) + (if x == MINUS_ONE then 1 else 0)
  {
    hide Occurrences;
    OccurrencesUpdate(c, i, c[j], MINUS_ONE);
    OccurrencesUpdate(c[i := c[j]], j, x, MINUS_ONE);
  }

  lemma {:induction false} RoundsMinus(stream: nat -> byte, tau: nat, n: nat, limit: nat)
    requires n <= tau <= 64
    ensures var r := Rounds(stream, tau, n, limit);
            r.Ball? ==> Occurrences(r.c, MINUS_ONE) == OnesBelow(Integer(stream, 0, 8), n)
  {
    hide Rounds, NextIndex, Sign, Swap, Integer, Bit, Occurrences, Weight, Ternary;
    if n == 0 {
      FirstRound(stream, tau, limit);
      OccurrencesZero(256);
    } else {
      RoundsMinus(stream, tau, n - 1, limit);
      RoundsUnfold(stream, tau, n, limit);
      RoundsInvariant(stream, tau, n - 1, limit);
      SignIsBit(stream, n - 1);
      var before := Rounds(stream, tau, n - 1, limit);
      if before.Ball? {
        var i := 256 - tau + n - 1;
        var q := NextIndex(stream, before.pos, i, limit);
        if q < limit {
          SwapOccurrences(before.c, i, stream(q), Sign(stream, n - 1));
        }
      }
    }
  }

  /** As many coefficients are -1 as there are ones among the first tau bits of the first eight bytes. */
  lemma BallSigns(stream: nat -> byte, tau: nat, limit: nat)
    requires tau <= 64
    ensures var r := BallOf(stream, tau, limit);
            r.Sampled? ==> Occurrences(r.f, MINUS_ONE) == OnesBelow(Integer(stream, 0, 8), tau)
  {
    hide Rounds, Occurrences, OnesBelow, Integer;
    RoundsMinus(stream, tau, tau, limit);
  }

  //////////////////////////////////////////////////////////////////////////////
  // Products of challenges
  //////////////////////////////////////////////////////////////////////////////

  lemma TernaryMulNorm(x: FieldElement, y: FieldElement)
    requires x == 0 || x == ONE || x == MINUS_ONE
    ensures InfinityNorm(Mul(x, y)) <= InfinityNorm(y)
    ensures x == 0 ==> InfinityNorm(Mul(x, y)) == 0
  {
    hide Mul, FromMontgomery, Sub;
    MulCommutes(x, y);
    if x == 0 {
      MulZero(y);
      FromOne();
    } else if x == ONE {
      MulOne(y);
    } else {
      MulMinusOne(y);
      NormNeg(y);
    }
  }

  lemma {:induction false} ProductNorm(c: Polynomial, s: Polynomial, eta: nat, k: nat)
    requires Ternary(c) && k < |s| && NormBelow(s, eta + 1)
    ensures InfinityNorm(Product(c, s)[k]) <= Weight(c) * eta
    decreases |c|
  {
    hide Add, Mul, Sub, InfinityNorm, Product, FromMontgomery;
    if c == [] {
      ProductOfNothing(s);
      ZeroNorm();
    } else {
      var rest := Product(c[1..], s);
      var at := if k == 0 then |s| - 1 else k - 1;
      var low := if k == 0 then Neg(rest[|s| - 1]) else rest[k - 1];
      ProductStep(c, s, k);
      ProductNorm(c[1..], s, eta, at);
      NormNeg(rest[|s| - 1]);
      NormAdd(Mul(c[0], s[k]), low);
      TernaryMulNorm(c[0], s[k]);
      WeightStep(c, eta);
    }
  }

  lemma ZeroNorm()
    ensures InfinityNorm(0) == 0
  {
    hide FromMontgomery;
    FromOne();
  }

  lemma WeightStep(c: Polynomial, eta: nat)
    requires c != []
    ensures Weight(c) * eta == Weight(c[1..]) * eta + (if c[0] == 0 then 0 else eta)
  {
    hide Weight;
    WeightUnfold(c);
    SuccessorTimes(Weight(c[1..]), eta);
  }

  lemma WeightUnfold(c: Polynomial)
    requires c != []
    ensures Weight(c) == if c[0] == 0 then Weight(c[1..]) else Weight(c[1..]) + 1
  {
  }

  lemma SuccessorTimes(n: nat, e: nat)
    ensures (n + 1) * e == n * e + e
  {
  }

  /** The product of a challenge with a secret has infinity norm at most beta = tau * eta. */
  lemma ChallengeNorm(stream: nat -> byte, tau: nat, limit: nat, c: Polynomial, s: Polynomial, eta: nat, beta: nat)
    requires tau <= 64 && beta == tau * eta && BallOf(stream, tau, limit) == Sampled(c)
    requires |s| == 256 && NormBelow(s, eta + 1)
    ensures NormBelow(Product(c, s), beta + 1)
  {
    hide BallOf, Product, InfinityNorm, Weight, Ternary;
    BallWeight(stream, tau, limit);
    forall k | 0 <= k < 256
      ensures InfinityNorm(Product(c, s)[k]) < beta + 1
    {
      ProductNorm(c, s, eta, k);
    }
  }
}
