/** Bytes, and the bitwise operators the codecs use, on natural numbers. */
module Bytes {
  import opened Zetas

  type byte = x: nat | x < 256

  /** Go's conversion byte(x) of a nonnegative integer. */
  function ToByte(x: nat): (b: byte)
  {
    x % 256
  }

  /** Bitwise or. */
  function Or(a: nat, b: nat): (r: nat)
  {
    if a == 0 then b
    else if b == 0 then a
    else (if a % 2 == 1 || b % 2 == 1 then 1 else 0) + 2 * Or(a / 2, b / 2)
  }

  /** Without common bits, or is addition. */
  lemma {:induction false} OrDisjoint(a: nat, b: nat, n: nat)
    requires a < Pow2(n) && b % Pow2(n) == 0
    ensures Or(a, b) == a + b
    decreases n
  {
    if a != 0 && b != 0 {
      assert n > 0 && Pow2(n) == 2 * Pow2(n - 1);
      HalfMultiple(b, Pow2(n - 1));
      OrDisjoint(a / 2, b / 2, n - 1);
    }
  }

  lemma HalfMultiple(b: nat, m: nat)
    requires m > 0 && b % (2 * m) == 0
    ensures b % 2 == 0 && (b / 2) % m == 0
  {
    var k := b / (2 * m);
    assert b == 2 * m * k + b % (2 * m);
    assert b == 2 * (m * k);
    assert b / 2 == m * k;
    MultipleMod(m, k);
  }

  lemma {:induction false} MultipleMod(m: nat, k: nat)
    requires m > 0
    ensures (m * k) % m == 0
    decreases k
  {
    if k > 0 {
      MultipleMod(m, k - 1);
      assert m * k == m * (k - 1) + m;
      AddModulus(m * (k - 1), m);
    }
  }

  lemma AddModulus(x: nat, m: nat)
    requires m > 0 && x % m == 0
    ensures (x + m) % m == 0
  {
    var q := x / m;
    assert x == q * m;
    assert x + m == (q + 1) * m;
    UniqueQuotient(x + m, q + 1, 0, m);
  }

  lemma UniqueQuotient(x: int, q: int, r: int, m: nat)
    requires m > 0 && x == q * m + r && 0 <= r < m
    ensures x / m == q && x % m == r
  {
    var d := x / m - q;
    assert x == (x / m) * m + x % m;
    assert (x / m) * m - q * m == d * m;
    assert d > 0 ==> d * m >= m;
    assert d < 0 ==> d * m <= -(m as int);
  }
}
