/** The guarantees of the data plane, over all runs of a connection. */
module PlaneTheorems {
  import opened Plane
  import opened PlaneInvariant

  /** A state that a new connection can reach. */
  ghost predicate Reachable(s: Conn)
  {
    exists maxChannels, run :: ValidRun(Start(maxChannels), run) && s == After(Start(maxChannels), run)
  }

  lemma ReachableInv(s: Conn)
    requires Reachable(s)
    ensures Inv(s)
  {
    hide Inv;
    var maxChannels, run :| ValidRun(Start(maxChannels), run) && s == After(Start(maxChannels), run);
    StartInv(maxChannels);
    RunInv(Start(maxChannels), run);
  }

  //////////////////////////////////////////////////////////////////////////////
  // Flow control
  //////////////////////////////////////////////////////////////////////////////

  /**
   Section 5.2 of RFC 4254, send side: the window and the debited bytes add up to
   the opening window and the adjustments, whatever the interleaving; the chunks
   are nonempty, at most one packet long, and with what is left they are exactly
   what was read from the backend.
   */
  lemma SendFlowControl(s: Conn, h: nat)
    requires Reachable(s) && h < |s.chans.objects|
    ensures var ch := s.chans.objects[h];
            && 0 <= ch.window <= 0xFFFF_FFFF
            && ch.window + Sum(ch.chunks) + ch.writing == ch.openWindow + ch.adjusted
            && (forall i :: 0 <= i < |ch.chunks| ==> 0 < |ch.chunks[i]| <= ch.maxPkt)
            && Concat(ch.chunks) + ch.rest == ch.input
  {
    hide KexInv, TableInv, AllRecv, LogInv, Sum, Concat, Reachable;
    ReachableInv(s);
    assert SendInv(s.chans.objects[h]);
  }

  /** Receive side: between messages the window and the consumed bytes are 2 MiB, and more than half is open. */
  lemma ReceiveFlowControl(s: Conn, id: u32)
    requires Reachable(s) && id in s.chans.table && !s.pc.Delivering?
    ensures s.chans.table[id] < |s.chans.objects|
    ensures var ch := s.chans.objects[s.chans.table[id]];
            && ch.recvWindow + ch.consumed == 0x20_0000 && ch.recvWindow > 0x10_0000
            && ch.recvWindow == ch.granted - ch.received
  {
    hide KexInv, AllSend, LogInv, Reachable;
    ReachableInv(s);
    assert RecvInv(s.chans.objects[s.chans.table[id]], InFlight(s.pc, s.chans.table[id]));
  }

  /** A peer is disconnected for its data exactly when one packet exceeds 32 KiB: the window never runs out. */
  lemma DataAcceptedIff(s: Conn, id: u32, size: nat)
    requires Reachable(s) && Enabled(s, TakeData(id, size)) && id in s.chans.table
    ensures Next(s, TakeData(id, size)).pc.Stopped? <==> size > 0x8000
    ensures size <= 0x8000 ==> Next(s, TakeData(id, size)).pc == Delivering(s.chans.table[id], id, size)
  {
    hide Reachable;
    ReceiveFlowControl(s, id);
  }

  //////////////////////////////////////////////////////////////////////////////
  // The connection
  //////////////////////////////////////////////////////////////////////////////

  /** Channels need authentication, authentication needs both directions encrypted, and so on. */
  lemma ConnectionInvariant(s: Conn)
    requires Reachable(s)
    ensures s.chans.table != map[] ==> s.kex.authed
    ensures s.kex.authed ==> !s.kex.clearIn && !s.kex.clearOut && s.kex.sessionID.Some?
    ensures s.kex.pendingIn <==> s.kex.phase.AwaitNewKeys?
    ensures |s.chans.table| <= s.maxChannels
    ensures s.kex.clientKex <==> !s.kex.phase.AwaitInit?
  {
    hide AllSend, AllRecv, LogInv, Reachable;
    ReachableInv(s);
    if |s.chans.table| == 0 {
      assert s.chans.table == map[];
    }
  }

  /** Local ids are distinct as long as fewer than 2^32 channels were opened, and the table never confuses two. */
  lemma LocalIdsDistinct(s: Conn, g: nat, h: nat)
    requires Reachable(s) && g < h < |s.chans.objects|
    ensures |s.chans.objects| <= 0x1_0000_0000 ==> s.chans.objects[g].localID != s.chans.objects[h].localID
    ensures forall id :: id in s.chans.table ==>
              s.chans.table[id] < |s.chans.objects| && s.chans.objects[s.chans.table[id]].localID == id
              && !s.chans.objects[s.chans.table[id]].closed
  {
    hide AllSend, AllRecv, LogInv, KexInv, Reachable;
    ReachableInv(s);
  }

  /** The session identifier is set once. */
  lemma {:induction false} SessionFixed(s: Conn, run: seq<Step>)
    requires ValidRun(s, run) && s.kex.sessionID.Some?
    ensures After(s, run).kex.sessionID == s.kex.sessionID
    decreases run
  {
    hide Next, Enabled;
    if run != [] {
      SessionStep(s, run[0]);
      SessionFixed(Next(s, run[0]), run[1..]);
    }
  }

  lemma SessionStep(s: Conn, e: Step)
    requires Enabled(s, e) && s.kex.sessionID.Some?
    ensures Next(s, e).kex.sessionID == s.kex.sessionID
  {
    hide TornDown, Closed, Put, SenderWrote, Chunked, Sent, Credited, NewChannel, Took, Widened, Fed;
    if e.TakeData? || e.DeliverData? || e.AdjustWindow? || e.SendChunk? {
      hide KexInitApplied, EcdhLooked, SessionSet, Switched, NewKeysTaken, RekeyStarted, OpenLooked, Inserted;
      assert Next(s, e).kex == s.kex;
    } else {
      hide DataTaken, Delivered, Adjusted, ChunkSent;
      assert Next(s, e).kex.sessionID == s.kex.sessionID;
    }
  }

  //////////////////////////////////////////////////////////////////////////////
  // Sequence numbers
  //////////////////////////////////////////////////////////////////////////////

  /** Two frames sealed with the same key and number. */
  predicate Repeats(log: seq<Sealed>)
  {
    exists i, j :: 0 <= i < j < |log| && log[i].epoch == log[j].epoch && log[i].seqNo == log[j].seqNo
  }

  /** A frame whose write failed, followed by another under the same key. */
  predicate SealedAfterFailure(log: seq<Sealed>)
  {
    exists i, j :: 0 <= i < j < |log| && log[i].epoch == log[j].epoch && !log[i].ok
  }

  lemma {:induction false} NumbersGrow(log: seq<Sealed>, i: nat, j: nat)
    requires Counting(log) && i <= j < |log| && log[i].epoch == log[j].epoch
    ensures log[i].seqNo <= log[j].seqNo
    decreases j
  {
    if i < j {
      assert log[i].epoch <= log[j - 1].epoch;
      NumbersGrow(log, i, j - 1);
    }
  }

  lemma RepeatsIff(log: seq<Sealed>)
    requires Counting(log)
    ensures Repeats(log) <==> SealedAfterFailure(log)
  {
    if Repeats(log) {
      var i, j :| 0 <= i < j < |log| && log[i].epoch == log[j].epoch && log[i].seqNo == log[j].seqNo;
      Between(log, i, j);
      NumbersGrow(log, i + 1, j);
      assert !log[i].ok;
    }
    if SealedAfterFailure(log) {
      var i, j :| 0 <= i < j < |log| && log[i].epoch == log[j].epoch && !log[i].ok;
      Between(log, i, j);
      assert log[i].seqNo == log[i + 1].seqNo;
    }
  }

  lemma Between(log: seq<Sealed>, i: nat, j: nat)
    requires Counting(log) && i < j < |log| && log[i].epoch == log[j].epoch
    ensures log[i].epoch == log[i + 1].epoch && log[i + 1].seqNo == Following(log[i])
  {
    assert log[i].epoch <= log[i + 1].epoch;
    assert i + 1 < j ==> log[i + 1].epoch <= log[j].epoch;
  }

  /**
   A key and sequence number seal two frames exactly when a frame is sealed after
   a failed write under the same key; no number above 2^32 - 1 is ever used.
   */
  lemma SequenceNumbers(s: Conn)
    requires Reachable(s)
    ensures Repeats(s.out.log) <==> SealedAfterFailure(s.out.log)
    ensures forall i :: 0 <= i < |s.out.log| ==> s.out.log[i].seqNo <= 0xFFFF_FFFF
  {
    hide KexInv, TableInv, AllSend, AllRecv, Counting, Reachable, Repeats, SealedAfterFailure;
    ReachableInv(s);
    RepeatsIff(s.out.log);
  }

  /** Up to the first failed write no key and number seal two frames. */
  lemma NoReuseWithoutFailure(s: Conn)
    requires Reachable(s) && forall i :: 0 <= i < |s.out.log| ==> s.out.log[i].ok
    ensures !Repeats(s.out.log)
  {
    hide Reachable;
    SequenceNumbers(s);
  }

  //////////////////////////////////////////////////////////////////////////////
  // A run that reuses a number
  //////////////////////////////////////////////////////////////////////////////

  lemma {:induction false} Extend(s: Conn, run: seq<Step>, e: Step)
    requires ValidRun(s, run) && Enabled(After(s, run), e)
    ensures ValidRun(s, run + [e]) && After(s, run + [e]) == Next(After(s, run), e)
    decreases run
  {
    hide Enabled, Next;
    if run == [] {
      assert (run + [e])[1..] == [];
    } else {
      Extend(Next(s, run[0]), run[1..], e);
      assert (run + [e])[1..] == run[1..] + [e];
    }
  }

  lemma ReachableStep(s: Conn, e: Step)
    requires Reachable(s) && Enabled(s, e)
    ensures Reachable(Next(s, e))
  {
    hide Enabled, Next, ValidRun, After;
    var maxChannels, run :| ValidRun(Start(maxChannels), run) && s == After(Start(maxChannels), run);
    Extend(Start(maxChannels), run, e);
  }

  lemma ReachableStart(maxChannels: nat)
    ensures Reachable(Start(maxChannels))
  {
    assert ValidRun(Start(maxChannels), []) && After(Start(maxChannels), []) == Start(maxChannels);
  }

  /** The state one step further. */
  lemma Stepped(s: Conn, e: Step) returns (t: Conn)
    requires Reachable(s) && Enabled(s, e)
    ensures Reachable(t) && t == Next(s, e)
  {
    hide Reachable;
    ReachableStep(s, e);
    t := Next(s, e);
  }

  /** The clear part of the handshake: our key exchange message, the client's, its share, our reply and NEWKEYS. */
  lemma Exchanged(maxChannels: nat) returns (s: Conn)
    ensures Reachable(s) && s.pc.EcdhHashed? && s.kex.strict && s.kex.clearOut && s.kex.clearIn && s.inSeq == 2
    ensures s.chans == Channels([], map[], 0) && s.maxChannels == maxChannels && s.out == Sender(0, 3, [])
  {
    hide Reachable;
    ReachableStart(maxChannels);
    s := Stepped(Start(maxChannels), Write(true));
    s := Stepped(s, Receive);
    s := Stepped(s, LookKexInit(true));
    s := Stepped(s, ApplyKexInit);
    s := Stepped(s, Receive);
    s := Stepped(s, LookEcdh);
    s := Stepped(s, HashEcdh(seq(32, _ => 7)));
    s := Stepped(s, Write(true));
    s := Stepped(s, Write(true));
  }

  /** The client's NEWKEYS, the service accept, and the success of its authentication, both sealed. */
  lemma Handshake(maxChannels: nat) returns (s: Conn)
    ensures Reachable(s) && s.pc.Idle? && s.kex.authed && !s.kex.clearIn && !s.kex.clearOut && s.inSeq == 2
    ensures s.chans == Channels([], map[], 0) && s.maxChannels == maxChannels
    ensures s.out == Sender(1, 2, [Sealed(1, 0, true), Sealed(1, 1, true)])
  {
    hide Reachable;
    s := Exchanged(maxChannels);
    s := Stepped(s, SwitchEcdh);
    s := Stepped(s, Receive);
    s := Stepped(s, TakeNewKeys);
    s := Stepped(s, Receive);
    s := Stepped(s, Write(true));
    s := Stepped(s, Receive);
    s := Stepped(s, Authenticate);
    s := Stepped(s, Write(true));
    assert s.out.log == [Sealed(1, 0, true), Sealed(1, 1, true)];
  }

  /** A channel is opened and confirmed. */
  lemma OpenOne(maxChannels: nat) returns (s: Conn)
    requires maxChannels > 0
    ensures Reachable(s) && !s.kex.clearOut && 0 in s.chans.table && s.maxChannels == maxChannels
    ensures s.out == Sender(1, 3, [Sealed(1, 0, true), Sealed(1, 1, true), Sealed(1, 2, true)])
  {
    hide Reachable;
    s := Handshake(maxChannels);
    s := Stepped(s, Receive);
    s := Stepped(s, LookOpen(0, 100, 100));
    s := Stepped(s, InsertOpen);
    s := Stepped(s, Write(true));
    assert s.out.log == [Sealed(1, 0, true), Sealed(1, 1, true), Sealed(1, 2, true)];
  }

  /** A forwarder whose EOF message fails still sends its close message, under the same number. */
  lemma ReuseRun(maxChannels: nat) returns (s: Conn)
    requires maxChannels > 0
    ensures Reachable(s) && s.maxChannels == maxChannels && Repeats(s.out.log)
  {
    hide Reachable, Closed;
    s := OpenOne(maxChannels);
    s := Stepped(s, Write(false));
    var log := s.out.log;
    assert log[3] == Sealed(1, 3, false);
    s := Stepped(s, CloseChannel(0));
    s := Stepped(s, Write(true));
    assert s.out.log == log + [Sealed(1, 3, true)];
    assert s.out.log[3].seqNo == s.out.log[4].seqNo && s.out.log[3].epoch == s.out.log[4].epoch;
  }

  /**
   Numbers can be reused after a failed write, whatever the quota: the condition of
   NoReuseWithoutFailure is needed.
   */
  lemma NumberReused(maxChannels: nat)
    requires maxChannels > 0
    ensures exists s :: Reachable(s) && s.maxChannels == maxChannels && Repeats(s.out.log)
  {
    hide Reachable, Repeats;
    var s := ReuseRun(maxChannels);
  }
}
