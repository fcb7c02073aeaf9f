/**
 internal/mldsa/semiexpanded.go: bitPackSlow and bitUnpackSlow, which pass the
 coefficients through a 32-bit accumulator, against SimpleBitPack of section 7.1
 of FIPS 204: the concatenation of the little-endian bits of the fields, cut
 into bytes.
 */
module SlowPack {
  import opened Field
  import opened FieldRing
  import opened Zetas
  import opened Poly
  import opened Bytes
  import opened Blocks
  import opened Packing

  //////////////////////////////////////////////////////////////////////////////
  // Bit strings
  //////////////////////////////////////////////////////////////////////////////

  /** The n low bits of x, least significant first. */
  function BitsOf(x: nat, n: nat): (s: seq<bool>)
    ensures |s| == n
  {
    if n == 0 then [] else [x % 2 == 1] + BitsOf(x / 2, n - 1)
  }

  function ValueOf(s: seq<bool>): (x: nat)
    ensures x < Pow2(|s|)
  {
    if s == [] then 0 else (if s[0] then 1 else 0) + 2 * ValueOf(s[1..])
  }

  lemma {:induction false} ValueOfBits(x: nat, n: nat)
    requires x < Pow2(n)
    ensures ValueOf(BitsOf(x, n)) == x
  {
    if n > 0 {
      ValueOfBits(x / 2, n - 1);
      assert BitsOf(x, n)[1..] == BitsOf(x / 2, n - 1);
    }
  }

  lemma {:induction false} BitsOfValue(s: seq<bool>)
    ensures BitsOf(ValueOf(s), |s|) == s
  {
    if s != [] {
      BitsOfValue(s[1..]);
    }
  }

  /** The bits of a + b * 2^m are the m bits of a, then those of b. */
  lemma {:induction false} BitsJoin(a: nat, b: nat, m: nat, n: nat)
    requires a < Pow2(m)
    ensures BitsOf(a + b * Pow2(m), m + n) == BitsOf(a, m) + BitsOf(b, n)
    decreases m
  {
    if m == 0 {
      assert BitsOf(a, m) + BitsOf(b, n) == BitsOf(b, n);
    } else {
      var rest := b * Pow2(m - 1);
      assert b * Pow2(m) == 2 * rest;
      assert (a + 2 * rest) / 2 == a / 2 + rest;
      BitsJoin(a / 2, b, m - 1, n);
      assert BitsOf(a, m) + BitsOf(b, n) == [a % 2 == 1] + (BitsOf(a / 2, m - 1) + BitsOf(b, n));
    }
  }

  lemma QuotientSmall(x: nat, m: nat, n: nat, p: nat)
    requires p == Pow2(m) && m <= n && x < Pow2(n)
    ensures x / p < Pow2(n - m)
  {
    hide Pow2;
    Pow2Sum(m, n - m);
    QuotientBelow(x, p, Pow2(n - m));
  }

  //////////////////////////////////////////////////////////////////////////////
  // Streams of fields
  //////////////////////////////////////////////////////////////////////////////

  predicate Narrow(ws: seq<nat>, n: nat)
  {
    forall i :: 0 <= i < |ws| ==> ws[i] < Pow2(n)
  }

  /** The fields of ws, n bits each, one after the other. */
  function Stream(ws: seq<nat>, n: nat): (s: seq<bool>)
    ensures |s| == Span(|ws|, n)
  {
    if ws == [] then [] else Stream(ws[..|ws| - 1], n) + BitsOf(ws[|ws| - 1], n)
  }

  /** The stream cut into k fields of n bits. */
  function Fields(s: seq<bool>, n: nat, k: nat): (ws: seq<nat>)
    requires |s| == Span(k, n)
    ensures |ws| == k && Narrow(ws, n)
    decreases k
  {
    if k == 0 then []
    else
      BlockCount(k, n);
      var m := Span(k - 1, n);
      Fields(s[..m], n, k - 1) + [ValueOf(s[m..])]
  }

  lemma {:induction false} FieldsOfStream(ws: seq<nat>, n: nat)
    requires Narrow(ws, n)
    ensures Fields(Stream(ws, n), n, |ws|) == ws
  {
    hide BitsOf, ValueOf;
    if ws != [] {
      var k := |ws| - 1;
      FieldsOfStream(ws[..k], n);
      ValueOfBits(ws[k], n);
      var s := Stream(ws, n);
      var m := Span(k, n);
      assert s[..m] == Stream(ws[..k], n) && s[m..] == BitsOf(ws[k], n);
    }
  }

  lemma {:induction false} StreamOfFields(s: seq<bool>, n: nat, k: nat)
    requires |s| == Span(k, n)
    ensures Stream(Fields(s, n, k), n) == s
    decreases k
  {
    hide BitsOf, ValueOf;
    if k > 0 {
      BlockCount(k, n);
      var m := Span(k - 1, n);
      StreamOfFields(s[..m], n, k - 1);
      BitsOfValue(s[m..]);
      var ws := Fields(s, n, k);
      assert ws[..k - 1] == Fields(s[..m], n, k - 1);
      assert s == s[..m] + s[m..];
    }
  }

  /** The fields are determined by their stream. */
  lemma StreamUnique(ws: seq<nat>, s: seq<bool>, n: nat)
    requires Narrow(ws, n) && Stream(ws, n) == s
    ensures |s| == Span(|ws|, n) && ws == Fields(s, n, |ws|)
  {
    FieldsOfStream(ws, n);
  }

  lemma StreamAppend(ws: seq<nat>, w: nat, n: nat)
    ensures Stream(ws + [w], n) == Stream(ws, n) + BitsOf(w, n)
  {
    assert (ws + [w])[..|ws|] == ws;
  }

  //////////////////////////////////////////////////////////////////////////////
  // What the two functions compute
  //////////////////////////////////////////////////////////////////////////////

  /** bits.Len. */
  function BitLen(x: nat): (n: nat)
    ensures x < Pow2(n)
  {
    if x == 0 then 0 else 1 + BitLen(x / 2)
  }

  /** The bounds the program packs with: -a..b, in 1 to 16 bits. */
  predicate SlowBounds(a: nat, b: nat)
  {
    1 <= BitLen(a + b) <= 16
  }

  predicate Within(r: Polynomial, a: nat, b: nat)
  {
    forall i :: 0 <= i < |r| ==> -(a as int) <= CenteredMod(r[i]) <= b
  }

  predicate AtMost(ws: seq<nat>, c: nat)
  {
    forall i :: 0 <= i < |ws| ==> ws[i] <= c
  }

  function Offsets(r: Polynomial, a: nat, b: nat): (ws: seq<nat>)
    requires Within(r, a, b)
    ensures |ws| == |r| && AtMost(ws, a + b) && Narrow(ws, BitLen(a + b))
    ensures forall i :: 0 <= i < |r| ==> ws[i] == b - CenteredMod(r[i])
  {
    seq(|r|, i requires 0 <= i < |r| => b - CenteredMod(r[i]))
  }

  lemma Small(x: nat, n: nat)
    requires BitLen(x) <= n && n <= 16
    ensures x < 0x1_0000
  {
    Pow2Grows(BitLen(x), 16);
    Pow2Sixteen();
  }

  lemma {:induction false} Pow2Grows(n: nat, m: nat)
    requires n <= m
    ensures Pow2(n) <= Pow2(m)
    decreases m
  {
    if n < m {
      Pow2Grows(n, m - 1);
    }
  }

  function FromOffsets(ws: seq<nat>, a: nat, b: nat): (r: Polynomial)
    requires SlowBounds(a, b) && AtMost(ws, a + b)
    ensures |r| == |ws|
    ensures a + b < 0x1_0000 && forall i :: 0 <= i < |r| ==> r[i] == SubToMontgomery(b, ws[i])
  {
    hide BitLen;
    Small(a + b, BitLen(a + b));
    seq(|ws|, i requires 0 <= i < |ws| => SubToMontgomery(b, ws[i]))
  }

  lemma StreamCut(n: nat)
    ensures Span(256, n) == Span(32 * n, 8)
  {
    hide Span;
    SpanProduct(256, n);
    SpanProduct(32 * n, 8);
  }

  /** SimpleBitPack of the offsets. */
  function SlowBytes(r: Polynomial, a: nat, b: nat): (v: seq<byte>)
    requires |r| == 256 && SlowBounds(a, b) && Within(r, a, b)
    ensures |v| == 32 * BitLen(a + b)
  {
    var n := BitLen(a + b);
    StreamCut(n);
    ToBytes(Fields(Stream(Offsets(r, a, b), n), 8, 32 * n))
  }

  function ToBytes(ws: seq<nat>): (v: seq<byte>)
    requires Narrow(ws, 8)
    ensures |v| == |ws| && forall i :: 0 <= i < |ws| ==> v[i] == ws[i]
  {
    Pow2Values();
    seq(|ws|, i requires 0 <= i < |ws| => ws[i])
  }

  datatype SlowResult = SlowOk(r: Polynomial) | SlowLength | SlowRange

  function SlowDecode(v: seq<byte>, a: nat, b: nat): (res: SlowResult)
    requires SlowBounds(a, b)
    ensures res.SlowOk? ==> |res.r| == 256
  {
    var n := BitLen(a + b);
    if |v| != 32 * n then SlowLength
    else
      StreamCut(n);
      var ws := Fields(Stream(v, 8), n, 256);
      if !AtMost(ws, a + b) then SlowRange else SlowOk(FromOffsets(ws, a, b))
  }

  lemma OffsetValue(a: nat, b: nat, w: nat)
    requires SlowBounds(a, b) && w <= a + b
    ensures a + b < 0x1_0000 && CenteredMod(SubToMontgomery(b, w)) == b - w
  {
    hide FromMontgomery, SubToMontgomery, BitLen;
    Small(a + b, BitLen(a + b));
    FromSubToMontgomery(b, w);
  }

  lemma BytesNarrow(v: seq<byte>)
    ensures Narrow(v, 8)
  {
    Pow2Values();
  }

  /** bitUnpackSlow inverts bitPackSlow for every pair of bounds and every polynomial within them. */
  lemma SlowRoundTrip(r: Polynomial, a: nat, b: nat)
    requires |r| == 256 && SlowBounds(a, b) && Within(r, a, b)
    ensures SlowDecode(SlowBytes(r, a, b), a, b) == SlowOk(r)
  {
    hide BitLen, Stream, Fields, Span, Offsets, FromOffsets, CenteredMod, SubToMontgomery, ToBytes;
    var n := BitLen(a + b);
    var ws := Offsets(r, a, b);
    StreamCut(n);
    var vs := Fields(Stream(ws, n), 8, 32 * n);
    assert ToBytes(vs) == vs;
    StreamOfFields(Stream(ws, n), 8, 32 * n);
    FieldsOfStream(ws, n);
    forall i | 0 <= i < 256
      ensures FromOffsets(ws, a, b)[i] == r[i]
    {
      OffsetValue(a, b, ws[i]);
      CenteredInjective(SubToMontgomery(b, ws[i]), r[i]);
    }
  }

  /** bitPackSlow reproduces every string that bitUnpackSlow accepts. */
  lemma SlowCanonical(v: seq<byte>, a: nat, b: nat)
    requires SlowBounds(a, b) && SlowDecode(v, a, b).SlowOk?
    ensures Within(SlowDecode(v, a, b).r, a, b) && SlowBytes(SlowDecode(v, a, b).r, a, b) == v
  {
    hide BitLen, Stream, Fields, Span, Offsets, FromOffsets, CenteredMod, SubToMontgomery, ToBytes;
    var n := BitLen(a + b);
    StreamCut(n);
    var ws := Fields(Stream(v, 8), n, 256);
    var r := SlowDecode(v, a, b).r;
    forall i | 0 <= i < 256
      ensures CenteredMod(r[i]) == b - ws[i]
    {
      OffsetValue(a, b, ws[i]);
    }
    assert Offsets(r, a, b) == ws;
    StreamOfFields(Stream(v, 8), n, 256);
    BytesNarrow(v);
    FieldsOfStream(v, 8);
  }

  //////////////////////////////////////////////////////////////////////////////
  // The loops
  //////////////////////////////////////////////////////////////////////////////

  /** acc |= x << accBits, on 32 bits. */
  function Push(acc: nat, accBits: nat, x: nat): (r: nat)
  {
    Or(acc, (x * Pow2(accBits)) % 0x1_0000_0000)
  }

  lemma ShiftedInside(acc: nat, x: nat, p: nat, q: nat)
    requires acc < p && x < q && p * q <= 0x100_0000
    ensures (x * p) % 0x1_0000_0000 == x * p && acc + x * p < p * q && (x * p) % p == 0
  {
    BelowProduct(x, acc, q, p);
    SmallMod(x * p, 0x1_0000_0000);
    MultipleMod(p, x);
    assert p * x == x * p;
  }

  /** Nothing is lost in 32 bits while the accumulator and the field have at most 24. */
  lemma PushBits(acc: nat, accBits: nat, x: nat, n: nat)
    requires acc < Pow2(accBits) && x < Pow2(n) && accBits + n <= 24
    ensures Push(acc, accBits, x) < Pow2(accBits + n)
    ensures BitsOf(Push(acc, accBits, x), accBits + n) == BitsOf(acc, accBits) + BitsOf(x, n)
  {
    hide Pow2, Or, BitsOf;
    var p := Pow2(accBits);
    Pow2Sum(accBits, n);
    Pow2Grows(accBits + n, 24);
    Pow2Sixteen();
    ShiftedInside(acc, x, p, Pow2(n));
    OrDisjoint(acc, x * p, accBits);
    BitsJoin(acc, x, accBits, n);
  }

  /** byte(acc) and acc >>= 8. */
  lemma TakeByte(acc: nat, accBits: nat)
    requires 8 <= accBits && acc < Pow2(accBits)
    ensures acc / 0x100 < Pow2(accBits - 8)
    ensures BitsOf(acc, accBits) == BitsOf(ToByte(acc), 8) + BitsOf(acc / 0x100, accBits - 8)
  {
    hide Pow2, BitsOf;
    Pow2Values();
    BitsJoin(acc % 0x100, acc / 0x100, 8, accBits - 8);
    QuotientSmall(acc, 8, accBits, 0x100);
  }

  /** The inner loop of bitPackSlow: moves whole bytes from the accumulator to the output. */
  method Drain(start: seq<byte>, acc0: nat, accBits0: nat) returns (out: seq<byte>, acc: nat, accBits: nat)
    requires acc0 < Pow2(accBits0)
    ensures Stream(out, 8) + BitsOf(acc, accBits) == Stream(start, 8) + BitsOf(acc0, accBits0)
    ensures accBits < 8 && acc < Pow2(accBits)
  {
    hide Pow2, BitsOf, Stream;
    out, acc, accBits := start, acc0, accBits0;
    while accBits >= 8
      invariant Stream(out, 8) + BitsOf(acc, accBits) == Stream(start, 8) + BitsOf(acc0, accBits0)
      invariant acc < Pow2(accBits)
    {
      TakeByte(acc, accBits);
      StreamAppend(out, ToByte(acc), 8);
      var next := out + [ToByte(acc)];
      assert Stream(next, 8) + BitsOf(acc / 0x100, accBits - 8) == Stream(out, 8) + BitsOf(acc, accBits);
      out, acc, accBits := next, acc / 0x100, accBits - 8;
    }
  }

  /** bitPackSlow. The last partial byte of the program is never written: 256 fields fill whole bytes. */
  method BitPackSlow(buf: seq<byte>, r: Polynomial, a: nat, b: nat) returns (out: seq<byte>)
    requires |r| == 256 && SlowBounds(a, b) && Within(r, a, b)
    ensures out == buf + SlowBytes(r, a, b)
  {
    hide Pow2, BitsOf, Stream, Span, Fields, BitLen, Push, Offsets, CenteredMod;
    var n := BitLen(a + b);
    var ws := Offsets(r, a, b);
    var v: seq<byte>, acc: nat, accBits: nat := [], 0, 0;
    NoBits(n);
    assert ws[..0] == [];
    for i := 0 to 256
      invariant accBits < 8 && acc < Pow2(accBits)
      invariant Stream(v, 8) + BitsOf(acc, accBits) == Stream(ws[..i], n)
    {
      PushBits(acc, accBits, ws[i], n);
      StreamAppend(ws[..i], ws[i], n);
      assert ws[..i] + [ws[i]] == ws[..i + 1];
      var full := Push(acc, accBits, ws[i]);
      assert Stream(v, 8) + BitsOf(full, accBits + n) == Stream(ws[..i + 1], n);
      v, acc, accBits := Drain(v, full, accBits + n);
    }
    assert ws[..256] == ws;
    StreamCut(n);
    SpanProduct(|v|, 8);
    SpanProduct(32 * n, 8);
    assert accBits == 0 && |v| == 32 * n;
    assert BitsOf(acc, 0) == [];
    assert Stream(v, 8) == Stream(ws, n);
    BytesNarrow(v);
    StreamUnique(v, Stream(ws, n), 8);
    out := buf + v;
  }

  lemma NoBits(n: nat)
    ensures Stream([], n) == [] && Stream([], 8) == [] && BitsOf(0, 0) == [] && Pow2(0) == 1
  {
  }

  /** acc & mask and acc >>= n. */
  lemma TakeField(acc: nat, accBits: nat, n: nat, p: nat)
    requires n <= accBits && acc < Pow2(accBits) && p == Pow2(n)
    ensures 0 <= acc / p < Pow2(accBits - n) && acc % p < p
    ensures BitsOf(acc, accBits) == BitsOf(acc % p, n) + BitsOf(acc / p, accBits - n)
  {
    hide Pow2, BitsOf;
    QuotientSmall(acc, n, accBits, p);
    var w, rest: nat := acc % p, acc / p;
    assert acc == w + rest * p;
    BitsJoin(w, rest, n, accBits - n);
  }

  lemma {:induction false} FieldsPrefix(s: seq<bool>, n: nat, k: nat, i: nat)
    requires |s| == Span(k, n) && i <= k
    ensures Span(i, n) <= |s| && Fields(s[..Span(i, n)], n, i) == Fields(s, n, k)[..i]
    decreases k
  {
    hide ValueOf;
    if i == k {
      assert s[..|s|] == s;
    } else {
      BlockCount(k, n);
      FieldsPrefix(s[..Span(k - 1, n)], n, k - 1, i);
      assert s[..Span(k - 1, n)][..Span(i, n)] == s[..Span(i, n)];
    }
  }

  lemma {:induction false} StreamPrefix(ws: seq<nat>, n: nat, i: nat)
    requires i <= |ws|
    ensures Stream(ws[..i], n) <= Stream(ws, n)
    decreases |ws|
  {
    hide BitsOf;
    if i == |ws| {
      assert ws[..i] == ws;
    } else {
      StreamPrefix(ws[..|ws| - 1], n, i);
      assert ws[..|ws| - 1][..i] == ws[..i];
    }
  }

  /** Fields read off the front of the input's stream are its first fields. */
  lemma FirstFields(v: seq<byte>, at: nat, us: seq<nat>, rest: seq<bool>, n: nat)
    requires |v| == 32 * n && at <= |v| && |us| <= 256 && Narrow(us, n)
    requires Stream(v[..at], 8) == Stream(us, n) + rest
    ensures Span(256, n) == Span(32 * n, 8)
    ensures us == Fields(Stream(v, 8), n, 256)[..|us|]
  {
    hide Stream, Fields, Span;
    StreamCut(n);
    StreamPrefix(v, 8, at);
    var s := Stream(v, 8);
    FieldsPrefix(s, n, 256, |us|);
    assert s[..Span(|us|, n)] == Stream(us, n);
    StreamUnique(us, Stream(us, n), n);
  }

  /** The inner loop of bitUnpackSlow: fills the accumulator with one field at least. */
  method Fill(v: seq<byte>, vIdx0: nat, acc0: nat, accBits0: nat, n: nat, ghost us: seq<nat>)
    returns (vIdx: nat, acc: nat, accBits: nat)
    requires 1 <= n <= 16 && |v| == 32 * n && |us| < 256
    requires accBits0 < 8 && acc0 < Pow2(accBits0) && vIdx0 <= |v|
    requires Stream(v[..vIdx0], 8) == Stream(us, n) + BitsOf(acc0, accBits0)
    ensures n <= accBits < n + 8 && acc < Pow2(accBits) && vIdx <= |v|
    ensures Stream(v[..vIdx], 8) == Stream(us, n) + BitsOf(acc, accBits)
  {
    hide Pow2, BitsOf, Stream, Span, Push;
    vIdx, acc, accBits := vIdx0, acc0, accBits0;
    while accBits < n
      invariant accBits < n + 8 && acc < Pow2(accBits) && vIdx <= |v|
      invariant Stream(v[..vIdx], 8) == Stream(us, n) + BitsOf(acc, accBits)
      decreases n - accBits
    {
      MoreInput(vIdx, |us|, accBits, n);
      Pow2Values();
      PushBits(acc, accBits, v[vIdx], 8);
      StreamAppend(v[..vIdx], v[vIdx], 8);
      assert v[..vIdx] + [v[vIdx]] == v[..vIdx + 1];
      var next := Push(acc, accBits, v[vIdx]);
      assert Stream(v[..vIdx + 1], 8) == Stream(us, n) + BitsOf(next, accBits + 8);
      acc, vIdx, accBits := next, vIdx + 1, accBits + 8;
    }
  }

  /** The truncation error of bitUnpackSlow cannot occur: a field still to be read has bytes left. */
  lemma MoreInput(vIdx: nat, i: nat, accBits: nat, n: nat)
    requires Span(vIdx, 8) == Span(i, n) + accBits && accBits < n && i < 256
    ensures vIdx < 32 * n
  {
    hide Span;
    BlockCount(i + 1, n);
    SpanGrows(i + 1, 256, n);
    StreamCut(n);
    SpanProduct(vIdx, 8);
    SpanProduct(32 * n, 8);
  }

  /** bitUnpackSlow. */
  method BitUnpackSlow(v: seq<byte>, a: nat, b: nat) returns (res: SlowResult)
    requires SlowBounds(a, b)
    ensures res == SlowDecode(v, a, b)
  {
    hide Pow2, BitsOf, Stream, Span, Fields, BitLen, FromOffsets, SubToMontgomery;
    var n := BitLen(a + b);
    if |v| != 32 * n {
      return SlowLength;
    }
    var r: Polynomial, acc: nat, accBits: nat, vIdx: nat := [], 0, 0, 0;
    ghost var us: seq<nat> := [];
    NoBits(n);
    assert v[..0] == [];
    Small(a + b, n);
    for i := 0 to 256
      invariant |us| == i && AtMost(us, a + b) && Narrow(us, n) && r == FromOffsets(us, a, b)
      invariant accBits < 8 && acc < Pow2(accBits) && vIdx <= |v|
      invariant Stream(v[..vIdx], 8) == Stream(us, n) + BitsOf(acc, accBits)
    {
      vIdx, acc, accBits := Fill(v, vIdx, acc, accBits, n, us);
      var p := Pow2(n);
      TakeField(acc, accBits, n, p);
      var w := acc % p;
      StreamAppend(us, w, n);
      assert Stream(v[..vIdx], 8) == Stream(us + [w], n) + BitsOf(acc / p, accBits - n);
      FirstFields(v, vIdx, us + [w], BitsOf(acc / p, accBits - n), n);
      if w > a + b {
        assert Fields(Stream(v, 8), n, 256)[i] == (us + [w])[i] == w;
        return SlowRange;
      }
      r := r + [SubToMontgomery(b, w)];
      us := us + [w];
      acc, accBits := acc / p, accBits - n;
    }
    FirstFields(v, vIdx, us, BitsOf(acc, accBits), n);
    assert us == Fields(Stream(v, 8), n, 256);
    return SlowOk(r);
  }
}
