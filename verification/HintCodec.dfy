/**
 The hint part of a signature (HintBitPack and HintBitUnpack, section 7.1 of
 FIPS 204): the positions of the ones of each row, ascending, in omega bytes,
 followed by the running count after each of the k rows.
 */
module HintCodec {
  import opened Bytes
  import opened Hints

  //////////////////////////////////////////////////////////////////////////////
  // Rows and positions
  //////////////////////////////////////////////////////////////////////////////

  /** A row of hints as makeHint produces it. */
  predicate Binary(h: Bits)
  {
    |h| == 256 && forall j :: 0 <= j < 256 ==> h[j] <= 1
  }

  predicate AllBinary(hs: seq<Bits>)
  {
    forall i :: 0 <= i < |hs| ==> Binary(hs[i])
  }

  predicate Increasing(ps: seq<byte>)
  {
    forall i, j :: 0 <= i < j < |ps| ==> ps[i] < ps[j]
  }

  /** The positions below n at which h is set, ascending. */
  function Positions(h: Bits, n: nat): (ps: seq<byte>)
    requires n <= |h| && n <= 256
    ensures Increasing(ps)
    ensures forall j :: j in ps <==> 0 <= j < n && h[j] != 0
  {
    if n == 0 then []
    else
      var ps := Positions(h, n - 1);
      assert forall i :: 0 <= i < |ps| ==> ps[i] in ps;
      if h[n - 1] != 0 then ps + [n - 1] else ps
  }

  /** The row whose set positions are ps. */
  function Row(ps: seq<byte>): (h: Bits)
    ensures Binary(h)
    ensures forall j :: 0 <= j < 256 ==> (h[j] != 0 <==> j in ps)
  {
    seq(256, j requires 0 <= j < 256 => if j in ps then 1 else 0)
  }

  lemma RowOfPositions(h: Bits)
    requires Binary(h)
    ensures Row(Positions(h, 256)) == h
  {
    hide Positions, Row;
    var r := Row(Positions(h, 256));
    forall j | 0 <= j < 256
      ensures r[j] == h[j]
    {
    }
  }

  lemma PositionsOfRow(ps: seq<byte>)
    requires Increasing(ps)
    ensures Positions(Row(ps), 256) == ps
  {
    hide Positions, Row;
    SameElements(Positions(Row(ps), 256), ps);
  }

  /** A strictly increasing sequence is determined by its elements. */
  lemma {:induction false} SameElements(a: seq<byte>, b: seq<byte>)
    requires Increasing(a) && Increasing(b)
    requires forall x :: x in a <==> x in b
    ensures a == b
    decreases |a|
  {
    if |a| == 0 {
      Inhabited(b);
    } else {
      var x := a[|a| - 1];
      assert x in b;
      var y := b[|b| - 1];
      assert y in a;
      Last(a, y);
      Last(b, x);
      var a', b' := a[..|a| - 1], b[..|b| - 1];
      forall v
        ensures v in a' <==> v in b'
      {
        Front(a, v);
        Front(b, v);
      }
      SameElements(a', b');
      assert a == a' + [x] && b == b' + [y];
    }
  }

  lemma Inhabited(b: seq<byte>)
    ensures |b| > 0 ==> exists x :: x in b
  {
    if |b| > 0 {
      assert b[0] in b;
    }
  }

  lemma Last(a: seq<byte>, x: byte)
    requires Increasing(a) && x in a
    ensures x <= a[|a| - 1]
  {
  }

  lemma Front(a: seq<byte>, x: byte)
    requires Increasing(a) && |a| > 0
    ensures x in a[..|a| - 1] <==> x in a && x != a[|a| - 1]
  {
  }

  /** The number of positions is the number of ones that makeHint counts. */
  lemma {:induction false} PositionsCount(h: Bits, n: nat)
    requires n <= |h| && n <= 256
    ensures |Positions(h, n)| == Ones(h[..n])
  {
    if n > 0 {
      PositionsCount(h, n - 1);
      assert h[..n][..n - 1] == h[..n - 1];
    }
  }

  //////////////////////////////////////////////////////////////////////////////
  // The encoding
  //////////////////////////////////////////////////////////////////////////////

  function AllPositions(hs: seq<Bits>): (ps: seq<byte>)
    requires AllBinary(hs)
  {
    if hs == [] then []
    else AllPositions(hs[..|hs| - 1]) + Positions(hs[|hs| - 1], 256)
  }

  /** The running counts; a count fits a byte because omega does. */
  function Counts(hs: seq<Bits>): (cs: seq<byte>)
    requires AllBinary(hs)
    ensures |cs| == |hs|
  {
    if hs == [] then []
    else Counts(hs[..|hs| - 1]) + [ToByte(|AllPositions(hs)|)]
  }

  function Zeros(n: nat): (zs: seq<byte>)
    ensures |zs| == n && forall i :: 0 <= i < n ==> zs[i] == 0
  {
    seq(n, _ => 0)
  }

  predicate Encodable(hs: seq<Bits>, omega: nat)
  {
    omega < 256 && AllBinary(hs) && |AllPositions(hs)| <= omega
  }

  function HintBytes(hs: seq<Bits>, omega: nat): (y: seq<byte>)
    requires Encodable(hs, omega)
    ensures |y| == omega + |hs|
  {
    AllPositions(hs) + Zeros(omega - |AllPositions(hs)|) + Counts(hs)
  }

  lemma NoRows()
    ensures AllPositions([]) == [] && Counts([]) == []
  {
  }

  lemma AppendRow(hs: seq<Bits>, h: Bits)
    requires AllBinary(hs) && Binary(h)
    ensures AllBinary(hs + [h])
    ensures AllPositions(hs + [h]) == AllPositions(hs) + Positions(h, 256)
    ensures Counts(hs + [h]) == Counts(hs) + [ToByte(|AllPositions(hs + [h])|)]
  {
    hide Positions, Binary, ToByte;
    assert (hs + [h])[..|hs|] == hs;
  }

  lemma {:induction false} PrefixEncodable(hs: seq<Bits>, i: nat, omega: nat)
    requires Encodable(hs, omega) && i <= |hs|
    ensures Encodable(hs[..i], omega) && |AllPositions(hs[..i])| <= |AllPositions(hs)|
    decreases |hs|
  {
    if i < |hs| {
      var front := hs[..|hs| - 1];
      PrefixEncodable(front, i, omega);
      assert front[..i] == hs[..i];
    } else {
      assert hs[..i] == hs;
    }
  }

  /** The number of ones in the first i rows. */
  function OnesBefore(hs: seq<Bits>, i: nat): (n: nat)
    requires i <= |hs|
  {
    if i == 0 then 0 else OnesBefore(hs, i - 1) + Ones(hs[i - 1])
  }

  lemma RowAppended(hs: seq<Bits>, i: nat)
    requires AllBinary(hs) && i < |hs|
    ensures AllPositions(hs[..i + 1]) == AllPositions(hs[..i]) + Positions(hs[i], 256)
    ensures Counts(hs[..i + 1]) == Counts(hs[..i]) + [ToByte(|AllPositions(hs[..i + 1])|)]
  {
    hide AllPositions, Counts, Positions, ToByte;
    assert hs[..i + 1] == hs[..i] + [hs[i]];
    AppendRow(hs[..i], hs[i]);
  }

  lemma {:induction false} PositionsBefore(hs: seq<Bits>, i: nat)
    requires AllBinary(hs) && i <= |hs|
    ensures |AllPositions(hs[..i])| == OnesBefore(hs, i)
  {
    hide Positions, Ones, AllPositions;
    if i == 0 {
      NoRows();
      assert hs[..i] == [];
    } else {
      PositionsBefore(hs, i - 1);
      RowAppended(hs, i - 1);
      PositionsCount(hs[i - 1], 256);
      assert hs[i - 1][..256] == hs[i - 1];
    }
  }

  /** What the first i rows wrote stays at the front of the positions and of the counts. */
  lemma {:induction false} RowsStay(hs: seq<Bits>, i: nat, n: nat)
    requires AllBinary(hs) && i <= n <= |hs|
    ensures AllPositions(hs[..i]) <= AllPositions(hs[..n]) && Counts(hs[..i]) <= Counts(hs[..n])
    decreases n
  {
    hide Positions, AllPositions, Counts;
    if i < n {
      RowsStay(hs, i, n - 1);
      RowAppended(hs, n - 1);
    }
  }

  /**
   The bytes of the hints: row i lists the places of its ones in increasing order, between the count
   before it and the count after it, and the latter is byte omega + i. Unused places are zero.
   */
  lemma HintLayout(hs: seq<Bits>, omega: nat, i: nat)
    requires Encodable(hs, omega) && i < |hs|
    ensures var y := HintBytes(hs, omega);
            var a, b := OnesBefore(hs, i), OnesBefore(hs, i + 1);
            && a <= b <= omega && y[omega + i] == b && Increasing(y[a..b])
            && (forall j :: 0 <= j < 256 ==> (hs[i][j] != 0 <==> j in y[a..b]))
    ensures var y := HintBytes(hs, omega); forall j :: OnesBefore(hs, |hs|) <= j < omega ==> y[j] == 0
  {
    hide Positions, AllPositions, Counts, Ones, Increasing;
    var y := HintBytes(hs, omega);
    var a, b := OnesBefore(hs, i), OnesBefore(hs, i + 1);
    PositionsBefore(hs, i);
    PositionsBefore(hs, i + 1);
    PositionsBefore(hs, |hs|);
    RowAppended(hs, i);
    RowsStay(hs, i + 1, |hs|);
    assert hs[..|hs|] == hs;
    var all := AllPositions(hs);
    assert y[a..b] == all[a..b] && all[..b] == AllPositions(hs[..i + 1]);
    assert all[a..b] == all[..b][a..b];
    assert y[a..b] == Positions(hs[i], 256);
    assert y[omega..] == Counts(hs) && Counts(hs)[i] == Counts(hs[..i + 1])[i];
  }

  //////////////////////////////////////////////////////////////////////////////
  // The decoder
  //////////////////////////////////////////////////////////////////////////////

  datatype HintError = HintLength | HintLimits | HintOrder | HintExtra

  datatype RowsResult = Rows(rows: seq<Bits>, idx: nat) | RowsError(error: HintError)

  datatype HintResult = HintOk(hints: seq<Bits>) | HintErr(error: HintError)

  /** What hintDecode has decoded after i rows. */
  function DecodeRows(y: seq<byte>, omega: nat, i: nat): (r: RowsResult)
    requires omega + i <= |y| && omega < 256
    ensures r.Rows? ==> |r.rows| == i && r.idx <= omega && AllBinary(r.rows)
  {
    if i == 0 then Rows([], 0)
    else
      var before := DecodeRows(y, omega, i - 1);
      if before.RowsError? then before
      else
        var limit := y[omega + i - 1];
        if limit < before.idx || limit > omega then RowsError(HintLimits)
        else
          var ps := y[before.idx..limit];
          if !Increasing(ps) then RowsError(HintOrder)
          else Rows(before.rows + [Row(ps)], limit)
  }

  function DecodeHints(y: seq<byte>, omega: nat, k: nat): (r: HintResult)
    requires omega < 256
    ensures r.HintOk? ==> |r.hints| == k && AllBinary(r.hints)
  {
    if |y| != omega + k then HintErr(HintLength)
    else
      var rows := DecodeRows(y, omega, k);
      if rows.RowsError? then HintErr(rows.error)
      else if y[rows.idx..omega] != Zeros(omega - rows.idx) then HintErr(HintExtra)
      else HintOk(rows.rows)
  }

  /** Decoded rows were encoded in the bytes consumed and in the counts read. */
  lemma {:induction false} RowsCanonical(y: seq<byte>, omega: nat, i: nat)
    requires omega + i <= |y| && omega < 256
    ensures var r := DecodeRows(y, omega, i);
            r.Rows? ==> AllPositions(r.rows) == y[..r.idx] && Counts(r.rows) == y[omega..omega + i]
  {
    hide Row, Positions, Increasing, AllPositions, Counts, AllBinary, Binary;
    if i == 0 {
      NoRows();
    } else {
      var before := DecodeRows(y, omega, i - 1);
      var r := DecodeRows(y, omega, i);
      RowsCanonical(y, omega, i - 1);
      if r.Rows? {
        var limit := y[omega + i - 1];
        var ps := y[before.idx..limit];
        PositionsOfRow(ps);
        AppendRow(before.rows, Row(ps));
        assert y[..limit] == y[..before.idx] + ps;
        assert y[omega..omega + i] == y[omega..omega + i - 1] + [limit];
      }
    }
  }

  /** hintEncode reproduces every byte string that hintDecode accepts. */
  lemma HintCanonical(y: seq<byte>, omega: nat, k: nat)
    requires omega < 256 && DecodeHints(y, omega, k).HintOk?
    ensures var hs := DecodeHints(y, omega, k).hints;
            Encodable(hs, omega) && HintBytes(hs, omega) == y
  {
    hide DecodeRows, AllPositions, Counts, AllBinary;
    RowsCanonical(y, omega, k);
    var r := DecodeRows(y, omega, k);
    assert y == y[..r.idx] + y[r.idx..omega] + y[omega..];
  }

  /** Where the encoding holds row i - 1. */
  lemma EncodedRow(hs: seq<Bits>, omega: nat, i: nat)
    requires Encodable(hs, omega) && 0 < i <= |hs|
    ensures AllBinary(hs[..i - 1]) && AllBinary(hs[..i]) && Binary(hs[i - 1])
    ensures var y := HintBytes(hs, omega);
            var n := |AllPositions(hs[..i - 1])|;
            var m := |AllPositions(hs[..i])|;
            n <= m <= omega && y[omega + i - 1] == m && y[n..m] == Positions(hs[i - 1], 256)
  {
    hide Positions, Binary, AllPositions, Counts;
    PrefixEncodable(hs, i, omega);
    PrefixEncodable(hs, i - 1, omega);
    assert hs[..i] == hs[..i - 1] + [hs[i - 1]];
    AppendRow(hs[..i - 1], hs[i - 1]);
    PositionsPrefix(hs, i);
    CountAt(hs, i - 1);
    var y := HintBytes(hs, omega);
    var n := |AllPositions(hs[..i - 1])|;
    var m := |AllPositions(hs[..i])|;
    assert y[..m] == AllPositions(hs[..i]);
    assert y[n..m] == y[..m][n..];
  }

  lemma RowDecoded(y: seq<byte>, omega: nat, i: nat, rows: seq<Bits>, n: nat, m: nat)
    requires omega + i + 1 <= |y| && omega < 256 && DecodeRows(y, omega, i) == Rows(rows, n)
    requires n <= m <= omega && y[omega + i] == m && Increasing(y[n..m])
    ensures DecodeRows(y, omega, i + 1) == Rows(rows + [Row(y[n..m])], m)
  {
    hide Row, Increasing, AllBinary;
  }

  lemma {:induction false} RowsRoundTrip(hs: seq<Bits>, omega: nat, y: seq<byte>, i: nat)
    requires Encodable(hs, omega) && i <= |hs| && y == HintBytes(hs, omega)
    ensures AllBinary(hs[..i])
    ensures DecodeRows(y, omega, i) == Rows(hs[..i], |AllPositions(hs[..i])|)
    decreases i
  {
    hide Row, Positions, Binary, Increasing, HintBytes, Counts, AllPositions;
    if i == 0 {
      NoRows();
      assert hs[..0] == [];
    } else {
      hide DecodeRows, AllBinary;
      RowsRoundTrip(hs, omega, y, i - 1);
      EncodedRow(hs, omega, i);
      RowOfPositions(hs[i - 1]);
      RowDecoded(y, omega, i - 1, hs[..i - 1], |AllPositions(hs[..i - 1])|, |AllPositions(hs[..i])|);
      assert hs[..i] == hs[..i - 1] + [hs[i - 1]];
    }
  }

  lemma {:induction false} PositionsPrefix(hs: seq<Bits>, i: nat)
    requires AllBinary(hs) && i <= |hs|
    ensures AllPositions(hs[..i]) <= AllPositions(hs)
    decreases |hs|
  {
    if i < |hs| {
      PositionsPrefix(hs[..|hs| - 1], i);
      assert hs[..|hs| - 1][..i] == hs[..i];
    } else {
      assert hs[..i] == hs;
    }
  }

  lemma {:induction false} CountAt(hs: seq<Bits>, i: nat)
    requires AllBinary(hs) && i < |hs|
    ensures AllBinary(hs[..i + 1]) && Counts(hs)[i] == ToByte(|AllPositions(hs[..i + 1])|)
    decreases |hs|
  {
    if i < |hs| - 1 {
      CountAt(hs[..|hs| - 1], i);
      assert hs[..|hs| - 1][..i + 1] == hs[..i + 1];
    } else {
      assert hs[..i + 1] == hs;
    }
  }

  /** hintDecode inverts hintEncode on every k rows with at most omega ones. */
  lemma HintRoundTrip(hs: seq<Bits>, omega: nat)
    requires Encodable(hs, omega)
    ensures DecodeHints(HintBytes(hs, omega), omega, |hs|) == HintOk(hs)
  {
    var y := HintBytes(hs, omega);
    RowsRoundTrip(hs, omega, y, |hs|);
    assert hs[..|hs|] == hs;
    var n := |AllPositions(hs)|;
    assert y[n..omega] == Zeros(omega - n);
  }

  //////////////////////////////////////////////////////////////////////////////
  // The loops
  //////////////////////////////////////////////////////////////////////////////

  lemma {:induction false} PositionsGrow(h: Bits, n: nat, m: nat)
    requires n <= m <= |h| && m <= 256
    ensures |Positions(h, n)| <= |Positions(h, m)|
    decreases m
  {
    if n < m {
      PositionsGrow(h, n, m - 1);
    }
  }

  /** After n columns of row i there is still room for the rest of the row. */
  lemma RoomForRow(hs: seq<Bits>, omega: nat, i: nat, n: nat)
    requires Encodable(hs, omega) && i < |hs| && n <= 256
    ensures Encodable(hs[..i], omega) && Binary(hs[i])
    ensures |AllPositions(hs[..i])| + |Positions(hs[i], n)| <= omega
  {
    hide Positions, AllPositions;
    PrefixEncodable(hs, i, omega);
    PrefixEncodable(hs, i + 1, omega);
    assert hs[..i + 1] == hs[..i] + [hs[i]];
    AppendRow(hs[..i], hs[i]);
    PositionsGrow(hs[i], n, 256);
  }

  /** The state of hintEncode's buffer: positions so far, zeros up to omega, counts of the rows done. */
  ghost predicate Filled(y: seq<byte>, ps: seq<byte>, counts: seq<byte>, omega: nat)
  {
    && |ps| <= omega && omega + |counts| <= |y|
    && y[..|ps|] == ps
    && y[omega..omega + |counts|] == counts
    && forall t :: |ps| <= t < omega ==> y[t] == 0
  }

  lemma FilledPosition(y: seq<byte>, ps: seq<byte>, counts: seq<byte>, omega: nat, x: byte)
    requires Filled(y, ps, counts, omega) && |ps| < omega
    ensures Filled(y[|ps| := x], ps + [x], counts, omega)
  {
  }

  lemma FilledCount(y: seq<byte>, ps: seq<byte>, counts: seq<byte>, omega: nat, c: byte)
    requires Filled(y, ps, counts, omega) && omega + |counts| < |y|
    ensures Filled(y[omega + |counts| := c], ps, counts + [c], omega)
  {
  }

  lemma FilledWhole(y: seq<byte>, ps: seq<byte>, counts: seq<byte>, omega: nat)
    requires Filled(y, ps, counts, omega) && omega + |counts| == |y|
    ensures y == ps + Zeros(omega - |ps|) + counts
  {
    assert y == y[..|ps|] + y[|ps|..omega] + y[omega..omega + |counts|];
    assert y[|ps|..omega] == Zeros(omega - |ps|);
  }

  lemma NoPositions(h: Bits)
    ensures Positions(h, 0) == []
  {
  }

  lemma PositionsStep(h: Bits, j: nat)
    requires j < |h| && j < 256
    ensures Positions(h, j + 1) == if h[j] != 0 then Positions(h, j) + [j] else Positions(h, j)
  {
  }

  /** The buffer after column j of a row. */
  lemma FilledColumn(y: seq<byte>, ps: seq<byte>, h: Bits, j: nat, counts: seq<byte>, omega: nat)
    requires |h| == 256 && j < 256 && Filled(y, ps + Positions(h, j), counts, omega)
    requires |ps| + |Positions(h, j + 1)| <= omega
    ensures var idx := |ps| + |Positions(h, j)|;
            if h[j] != 0
            then && idx < omega <= |y| && Filled(y[idx := ToByte(j)], ps + Positions(h, j + 1), counts, omega)
                 && |Positions(h, j + 1)| == |Positions(h, j)| + 1
            else Positions(h, j + 1) == Positions(h, j)
  {
    hide Positions;
    PositionsStep(h, j);
    if h[j] != 0 {
      hide Filled;
      var front := ps + Positions(h, j);
      FilledRoom(y, front, counts, omega);
      FilledPosition(y, front, counts, omega, ToByte(j));
      assert ps + Positions(h, j + 1) == front + [ToByte(j)];
    }
  }

  lemma FilledRoom(y: seq<byte>, ps: seq<byte>, counts: seq<byte>, omega: nat)
    requires Filled(y, ps, counts, omega)
    ensures |ps| <= omega <= |y|
  {
  }

  /** The inner loop of hintEncode: one row. */
  method EncodeRow(y: array<byte>, start: nat, h: Bits, omega: nat, ghost ps: seq<byte>, ghost counts: seq<byte>)
    returns (idx: nat)
    requires Binary(h) && omega < 256 && start == |ps|
    requires |ps| + |Positions(h, 256)| <= omega <= y.Length
    requires Filled(y[..], ps, counts, omega)
    modifies y
    ensures Filled(y[..], ps + Positions(h, 256), counts, omega) && idx == |ps + Positions(h, 256)|
  {
    hide Positions, Filled, ToByte;
    idx := start;
    NoPositions(h);
    assert ps + [] == ps;
    for j := 0 to 256
      invariant idx == |ps| + |Positions(h, j)| && idx <= omega && omega <= y.Length
      invariant Filled(y[..], ps + Positions(h, j), counts, omega)
    {
      PositionsGrow(h, j + 1, 256);
      FilledColumn(y[..], ps, h, j, counts, omega);
      if h[j] != 0 {
        ghost var was := y[..];
        y[idx] := ToByte(j);
        assert y[..] == was[idx := ToByte(j)];
        idx := idx + 1;
      }
    }
  }

  /** hintEncode. */
  method HintEncode(buf: seq<byte>, h: seq<Bits>, omega: nat) returns (out: seq<byte>)
    requires Encodable(h, omega)
    ensures out == buf + HintBytes(h, omega)
  {
    hide Positions, AllPositions, Counts, Binary, Filled, ToByte;
    var k := |h|;
    var y := new byte[omega + k](_ => 0);
    var idx := 0;
    NoRows();
    assert h[..0] == [];
    assert Filled(y[..], [], [], omega) by {
      StartFilled(y[..], omega);
    }
    for i := 0 to k
      invariant AllBinary(h[..i]) && idx == |AllPositions(h[..i])|
      invariant Filled(y[..], AllPositions(h[..i]), Counts(h[..i]), omega)
    {
      RoomForRow(h, omega, i, 256);
      ghost var ps, counts := AllPositions(h[..i]), Counts(h[..i]);
      idx := EncodeRow(y, idx, h[i], omega, ps, counts);
      AppendRow(h[..i], h[i]);
      assert h[..i + 1] == h[..i] + [h[i]];
      FilledCount(y[..], AllPositions(h[..i + 1]), counts, omega, ToByte(idx));
      ghost var was := y[..];
      y[omega + i] := ToByte(idx);
      assert y[..] == was[omega + i := ToByte(idx)];
    }
    assert h[..k] == h;
    FilledWhole(y[..], AllPositions(h), Counts(h), omega);
    out := buf + y[..];
  }

  lemma StartFilled(y: seq<byte>, omega: nat)
    requires omega <= |y| && forall t :: 0 <= t < |y| ==> y[t] == 0
    ensures Filled(y, [], [], omega)
  {
  }

  lemma IncreasingStep(ps: seq<byte>, x: byte)
    requires Increasing(ps)
    ensures Increasing(ps + [x]) <==> |ps| == 0 || ps[|ps| - 1] < x
  {
    var qs := ps + [x];
    if |ps| > 0 && x <= ps[|ps| - 1] {
      assert !(qs[|ps| - 1] < qs[|ps|]);
    }
  }

  lemma IncreasingPrefix(y: seq<byte>, a: nat, b: nat, c: nat)
    requires a <= b <= c <= |y| && Increasing(y[a..c])
    ensures Increasing(y[a..b])
  {
    assert y[a..b] == y[a..c][..b - a];
  }

  lemma RowStep(ps: seq<byte>, x: byte)
    ensures Row(ps)[x := 1] == Row(ps + [x])
  {
  }

  /** The inner loop of hintDecode: one row, or its order violation. */
  method DecodeRow(y: seq<byte>, first: nat, limit: nat) returns (ok: bool, row: Bits)
    requires first <= limit <= |y|
    ensures ok <==> Increasing(y[first..limit])
    ensures ok ==> row == Row(y[first..limit])
  {
    hide Row, Increasing;
    row := seq(256, _ => 0);
    var idx := first;
    assert y[first..idx] == [];
    EmptyRow();
    while idx < limit
      invariant first <= idx <= limit
      invariant Increasing(y[first..idx])
      invariant |row| == 256 && row == Row(y[first..idx])
    {
      ghost var ps := y[first..idx];
      IncreasingStep(ps, y[idx]);
      assert y[first..idx + 1] == ps + [y[idx]];
      if idx > first && y[idx - 1] >= y[idx] {
        if Increasing(y[first..limit]) {
          IncreasingPrefix(y, first, idx + 1, limit);
        }
        return false, row;
      }
      RowStep(ps, y[idx]);
      row := row[y[idx] := 1];
      idx := idx + 1;
    }
    return true, row;
  }

  lemma EmptyRow()
    ensures Row([]) == seq(256, _ => 0) && Increasing([])
  {
  }

  lemma RowsErrorStays(y: seq<byte>, omega: nat, i: nat, k: nat)
    requires omega + k <= |y| && omega < 256 && i <= k && DecodeRows(y, omega, i).RowsError?
    ensures DecodeRows(y, omega, k) == DecodeRows(y, omega, i)
    decreases k
  {
    if i < k {
      RowsErrorStays(y, omega, i, k - 1);
    }
  }

  /** hintDecode. */
  method HintDecode(y: seq<byte>, omega: nat, k: nat) returns (r: HintResult)
    requires omega < 256
    ensures r == DecodeHints(y, omega, k)
  {
    hide Increasing, Row, AllBinary;
    if |y| != omega + k {
      return HintErr(HintLength);
    }
    var idx: nat, h: seq<Bits> := 0, [];
    for i := 0 to k
      invariant idx <= omega
      invariant DecodeRows(y, omega, i) == Rows(h, idx)
    {
      var limit := y[omega + i];
      if limit < idx || limit > omega {
        RowsErrorStays(y, omega, i + 1, k);
        return HintErr(HintLimits);
      }
      var ok, row := DecodeRow(y, idx, limit);
      if !ok {
        RowsErrorStays(y, omega, i + 1, k);
        return HintErr(HintOrder);
      }
      h := h + [row];
      idx := limit;
    }
    for i := idx to omega
      invariant forall t :: idx <= t < i ==> y[t] == 0
    {
      if y[i] != 0 {
        assert y[idx..omega][i - idx] != 0;
        return HintErr(HintExtra);
      }
    }
    assert y[idx..omega] == Zeros(omega - idx);
    return HintOk(h);
  }
}
