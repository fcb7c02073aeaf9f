/**
 The connection against its history: what the steps of a run, read one after
 the other, say about the channels, the sequence numbers and the keys.
 */
module PlaneHistory {
  import opened Plane
  import opened PlaneInvariant
  import opened PlaneTheorems

  //////////////////////////////////////////////////////////////////////////////
  // The book of a run
  //////////////////////////////////////////////////////////////////////////////

  /** What a run says about one channel: the open request, and the sizes and bytes that followed. */
  datatype Account = Account(sender: u32, window: u32, maxPkt: u32, adjusted: nat, received: nat, input: seq<nat>)

  /** The accounts by order of opening, the last open request, and the packets received, all or since NEWKEYS. */
  datatype Book = Book(accounts: seq<Account>, asked: Account, all: nat, since: nat)

  const BLANK := Book([], Account(0, 0, 0, 0, 0, []), 0, 0)

  /** What a step adds to the book. */
  function Booked(s: Conn, e: Step, b: Book): (r: Book)
  {
    match e
    case Receive => b.(all := b.all + 1, since := b.since + 1)
    case TakeNewKeys => if s.kex.phase == AwaitNewKeys then b.(since := 0) else b
    case LookOpen(sender, window, maxPkt) => b.(asked := Account(sender, window, maxPkt, 0, 0, []))
    case InsertOpen => if |s.chans.table| < s.maxChannels then b.(accounts := b.accounts + [b.asked]) else b
    case TakeData(id, size) =>
      if id in s.chans.table && size <= 0x8000 && s.chans.table[id] < |b.accounts|
      then
        var a := b.accounts[s.chans.table[id]];
        b.(accounts := b.accounts[s.chans.table[id] := a.(received := a.received + size)])
      else b
    case AdjustWindow(id, add) =>
      if id in s.chans.table && s.chans.table[id] < |b.accounts| && s.chans.table[id] < |s.chans.objects|
         && s.chans.objects[s.chans.table[id]].window + add < 0x1_0000_0000
      then
        var a := b.accounts[s.chans.table[id]];
        b.(accounts := b.accounts[s.chans.table[id] := a.(adjusted := a.adjusted + add)])
      else b
    case BackendRead(h, data) =>
      if h < |b.accounts| then b.(accounts := b.accounts[h := b.accounts[h].(input := b.accounts[h].input + data)])
      else b
    case _ => b
  }

  function BookOf(s: Conn, run: seq<Step>, b: Book): (r: Book)
    requires ValidRun(s, run)
    decreases run
  {
    if run == [] then b else BookOf(Next(s, run[0]), run[1..], Booked(s, run[0], b))
  }

  predicate Same(ch: Channel, a: Account)
  {
    && ch.remoteID == a.sender && ch.openWindow == a.window && ch.maxPkt == a.maxPkt
    && ch.adjusted == a.adjusted && ch.received == a.received && ch.input == a.input
  }

  /** The channels are the accounts. */
  predicate Matches(s: Conn, b: Book)
  {
    && |s.chans.objects| == |b.accounts|
    && (forall h :: 0 <= h < |b.accounts| ==> Same(s.chans.objects[h], b.accounts[h]))
    && (s.pc.Dialing? ==> b.asked == Account(s.pc.sender, s.pc.window, s.pc.maxPkt, 0, 0, []))
  }

  lemma MatchesStep(s: Conn, e: Step, b: Book)
    requires Inv(s) && Enabled(s, e) && Matches(s, b)
    ensures Matches(Next(s, e), Booked(s, e, b))
  {
    if e.TakeData? {
      TakeMatches(s, e, b);
    } else if e.DeliverData? || e.CloseChannel? || e.Stop? {
      EndMatches(s, e, b);
    } else if e.LookOpen? || e.InsertOpen? || e.AdjustWindow? {
      OpenMatches(s, e, b);
    } else if e.BackendRead? || e.Debit? || e.SendChunk? {
      ForwardMatches(s, e, b);
    } else {
      hide Inv, DataTaken, Delivered, Closed, TornDown, Inserted, Adjusted, OpenLooked, ChunkSent, SenderWrote, Put;
      assert Next(s, e).chans == s.chans && (Next(s, e).pc.Dialing? ==> Next(s, e).pc == s.pc);
    }
  }

  lemma OpenMatches(s: Conn, e: Step, b: Book)
    requires Enabled(s, e) && Matches(s, b) && (e.LookOpen? || e.InsertOpen? || e.AdjustWindow?)
    ensures Matches(Next(s, e), Booked(s, e, b))
  {
  }

  lemma ForwardMatches(s: Conn, e: Step, b: Book)
    requires Enabled(s, e) && Matches(s, b) && (e.BackendRead? || e.Debit? || e.SendChunk?)
    ensures Matches(Next(s, e), Booked(s, e, b))
  {
    hide SenderWrote;
  }

  lemma TakeMatches(s: Conn, e: Step, b: Book)
    requires Inv(s) && Enabled(s, e) && Matches(s, b) && e.TakeData?
    ensures Matches(Next(s, e), Booked(s, e, b))
  {
    hide KexInv, AllSend, LogInv, SenderWrote, Sum, Concat;
    if e.id in s.chans.table {
      var ch := s.chans.objects[s.chans.table[e.id]];
      assert RecvInv(ch, 0);
      assert ch.recvWindow > MAX_RECV;
    }
  }

  lemma EndMatches(s: Conn, e: Step, b: Book)
    requires Enabled(s, e) && Matches(s, b) && (e.DeliverData? || e.CloseChannel? || e.Stop?)
    ensures Matches(Next(s, e), Booked(s, e, b))
  {
  }

  lemma {:induction false} MatchesRun(s: Conn, run: seq<Step>, b: Book)
    requires Inv(s) && ValidRun(s, run) && Matches(s, b)
    ensures Matches(After(s, run), BookOf(s, run, b))
    decreases run
  {
    hide Inv, Enabled, Next, Booked, Matches;
    if run != [] {
      StepInv(s, run[0]);
      MatchesStep(s, run[0], b);
      MatchesRun(Next(s, run[0]), run[1..], Booked(s, run[0], b));
    }
  }

  /**
   The channels of a run are the accepted open requests, in order, each with the
   peer's channel number, window and packet size of its own request; and the
   windows and bytes they count are those of the messages of the run.
   */
  lemma ChannelsMatchRequests(maxChannels: nat, run: seq<Step>)
    requires ValidRun(Start(maxChannels), run)
    ensures var s := After(Start(maxChannels), run);
            var accounts := BookOf(Start(maxChannels), run, BLANK).accounts;
            && |s.chans.objects| == |accounts|
            && forall h :: 0 <= h < |accounts| ==>
                 var ch := s.chans.objects[h];
                 var a := accounts[h];
                 && ch.remoteID == a.sender && ch.openWindow == a.window && ch.maxPkt == a.maxPkt
                 && ch.adjusted == a.adjusted && ch.received == a.received && ch.input == a.input
  {
    hide Inv, Booked, Next, Enabled;
    StartInv(maxChannels);
    MatchesRun(Start(maxChannels), run, BLANK);
    forall h | 0 <= h < |BookOf(Start(maxChannels), run, BLANK).accounts|
      ensures Same(After(Start(maxChannels), run).chans.objects[h], BookOf(Start(maxChannels), run, BLANK).accounts[h])
    {
    }
  }

  /** An open request adds a channel exactly when the client is authenticated and there is room and a packet size. */
  lemma OpenedIff(s: Conn, sender: u32, window: u32, maxPkt: u32)
    requires Enabled(s, LookOpen(sender, window, maxPkt))
    ensures var t := Next(s, LookOpen(sender, window, maxPkt));
            && (t.pc.Stopped? <==> !s.kex.authed)
            && (Enabled(t, InsertOpen) <==> s.kex.authed && maxPkt > 0 && |s.chans.table| < s.maxChannels)
            && (Enabled(t, InsertOpen) ==>
                  var u := Next(t, InsertOpen);
                  && |u.chans.objects| == |s.chans.objects| + 1
                  && s.chans.nextLocal in u.chans.table
                  && u.chans.table[s.chans.nextLocal] == |s.chans.objects|)
  {
  }

  /** An adjustment ends the connection exactly when the window would pass 2^32 - 1. */
  lemma AdjustRefusedIff(s: Conn, id: u32, add: u32)
    requires Reachable(s) && Enabled(s, AdjustWindow(id, add)) && id in s.chans.table
    ensures s.chans.table[id] < |s.chans.objects|
    ensures var ch := s.chans.objects[s.chans.table[id]];
            Next(s, AdjustWindow(id, add)).pc.Stopped? <==>
              ch.openWindow + ch.adjusted - Sum(ch.chunks) - ch.writing + add >= 0x1_0000_0000
  {
    hide Reachable, Sum, AllRecv, AllSend, LogInv;
    ReachableInv(s);
    SendFlowControl(s, s.chans.table[id]);
  }

  //////////////////////////////////////////////////////////////////////////////
  // Open channels
  //////////////////////////////////////////////////////////////////////////////

  /** A channel that is not closed is in the table under its own number. */
  predicate OpenListed(c: Channels)
  {
    |c.objects| <= 0x1_0000_0000 ==>
      forall h: nat :: h < |c.objects| && !c.objects[h].closed ==> h in c.table && c.table[h] == h
  }

  lemma PutListed(c: Channels, h: nat, ch: Channel)
    requires OpenListed(c) && h < |c.objects| && ch.closed == c.objects[h].closed
    ensures OpenListed(Put(c, h, ch))
  {
  }

  lemma ClosedListed(c: Channels, id: u32)
    requires OpenListed(c)
    ensures OpenListed(Closed(c, id))
  {
  }

  lemma TornListed(c: Channels)
    requires OpenListed(c)
    ensures OpenListed(TornDown(c))
  {
    if |c.objects| <= 0x1_0000_0000 {
      forall h: nat | h < |c.objects|
        ensures TornDown(c).objects[h].closed
      {
        if !c.objects[h].closed {
          assert c.table[h] in c.table.Values;
        }
      }
    }
  }

  lemma InsertListed(s: Conn)
    requires s.pc.Dialing? && OpenListed(s.chans) && TableInv(s.chans, s.kex.authed, s.maxChannels)
    ensures OpenListed(Inserted(s).chans)
  {
    var n := |s.chans.objects|;
    if n < 0x1_0000_0000 {
      assert s.chans.nextLocal == n;
    }
  }

  lemma ListedStep(s: Conn, e: Step)
    requires Inv(s) && Enabled(s, e) && OpenListed(s.chans)
    ensures OpenListed(Next(s, e).chans)
  {
    hide OpenListed, KexInv, AllSend, AllRecv, LogInv, TableInv, SenderWrote, Closed, TornDown, Inserted, Put;
    match e
    case InsertOpen => InsertListed(s); assert TableInv(s.chans, s.kex.authed, s.maxChannels);
    case TakeData(id, size) =>
      if id in s.chans.table && s.chans.table[id] < |s.chans.objects| {
        var h := s.chans.table[id];
        if size <= s.chans.objects[h].recvWindow {
          PutListed(s.chans, h, Took(s.chans.objects[h], size));
        }
      }
    case DeliverData(ok) =>
      ClosedListed(s.chans, s.pc.id);
      if s.pc.h < |s.chans.objects| {
        PutListed(s.chans, s.pc.h, Credited(s.chans.objects[s.pc.h], s.pc.size));
      }
    case AdjustWindow(id, add) =>
      if id in s.chans.table && s.chans.table[id] < |s.chans.objects| {
        var h := s.chans.table[id];
        if add <= 0xFFFF_FFFF - s.chans.objects[h].window {
          PutListed(s.chans, h, Widened(s.chans.objects[h], add));
        }
      }
    case CloseChannel(id) => ClosedListed(s.chans, id);
    case Stop => TornListed(s.chans);
    case BackendRead(h, data) => PutListed(s.chans, h, Fed(s.chans.objects[h], data));
    case Debit(h) => PutListed(s.chans, h, Chunked(s.chans.objects[h]));
    case SendChunk(h, ok) =>
      var ch := s.chans.objects[h];
      PutListed(s.chans, h, ch.(failed := true));
      if ch.writing <= |ch.rest| {
        PutListed(s.chans, h, Sent(ch));
      }
    case _ =>
  }

  lemma {:induction false} ListedRun(s: Conn, run: seq<Step>)
    requires Inv(s) && ValidRun(s, run) && OpenListed(s.chans)
    ensures OpenListed(After(s, run).chans)
    decreases run
  {
    hide Inv, Enabled, Next, OpenListed;
    if run != [] {
      StepInv(s, run[0]);
      ListedStep(s, run[0]);
      ListedRun(Next(s, run[0]), run[1..]);
    }
  }

  /** Until the numbers wrap, a channel is open exactly when the table holds it, under its number. */
  lemma OpenIffListed(s: Conn, h: nat)
    requires Reachable(s) && h < |s.chans.objects| <= 0x1_0000_0000
    ensures !s.chans.objects[h].closed <==> h in s.chans.table
    ensures h in s.chans.table ==> s.chans.table[h] == h
  {
    hide KexInv, AllSend, AllRecv, LogInv, ValidRun, After;
    var maxChannels, run :| ValidRun(Start(maxChannels), run) && s == After(Start(maxChannels), run);
    StartInv(maxChannels);
    ListedRun(Start(maxChannels), run);
    RunInv(Start(maxChannels), run);
    if h in s.chans.table {
      var g := s.chans.table[h];
      assert g < |s.chans.objects| && s.chans.objects[g].localID == h;
      assert s.chans.objects[g].localID == g % 0x1_0000_0000;
    }
  }

  /** A close takes the channel out of the table and closes it, and touches nothing else. */
  lemma CloseEffect(s: Conn, id: u32)
    requires Reachable(s)
    ensures var t := Next(s, CloseChannel(id));
            if id in s.chans.table then
              && s.chans.table[id] < |s.chans.objects|
              && t.chans.table == s.chans.table - {id}
              && t.chans.objects == s.chans.objects[s.chans.table[id] :=
                                      s.chans.objects[s.chans.table[id]].(closed := true)]
              && t == s.(chans := s.chans.(objects := t.chans.objects, table := t.chans.table))
            else t == s
  {
    hide Reachable, KexInv, AllSend, AllRecv, LogInv;
    ReachableInv(s);
  }

  //////////////////////////////////////////////////////////////////////////////
  // Key changes
  //////////////////////////////////////////////////////////////////////////////

  /** A phase changes only to the next one, and only by the step for it. */
  lemma PhaseMoves(s: Conn, e: Step)
    requires Inv(s) && Enabled(s, e)
    ensures Next(s, e).kex.phase == s.kex.phase || (s.kex.phase, e, Next(s, e).kex.phase) in {
              (AwaitInit, ApplyKexInit, AwaitEcdh), (Ready, ApplyKexInit, AwaitEcdh),
              (AwaitEcdh, SwitchEcdh, AwaitNewKeys), (AwaitNewKeys, TakeNewKeys, Ready),
              (Ready, StartRekey, AwaitInit)}
  {
    hide TableInv, AllSend, AllRecv, LogInv, TornDown, Closed, Put, SenderWrote, Chunked, Sent, Credited, NewChannel;
    if e.TakeData? || e.DeliverData? || e.AdjustWindow? || e.SendChunk? {
      hide KexInitApplied, EcdhLooked, SessionSet, Switched, NewKeysTaken, RekeyStarted, OpenLooked, Inserted;
      assert Next(s, e).kex == s.kex;
    } else {
      hide DataTaken, Delivered, Adjusted, ChunkSent;
    }
  }

  /** Before the first NEWKEYS nothing is decrypted, and before the first switch nothing is sealed. */
  predicate KeysInv(s: Conn)
  {
    && (s.kex.initial <==> s.kex.clearIn)
    && (s.kex.clearOut <==> s.out.epoch == 0)
    && (s.kex.initial && !s.kex.phase.AwaitNewKeys? ==> s.kex.clearOut)
  }

  lemma KeysStep(s: Conn, e: Step)
    requires Inv(s) && Enabled(s, e) && KeysInv(s)
    ensures KeysInv(Next(s, e))
    ensures Next(s, e).kex.strict != s.kex.strict ==>
              e.ApplyKexInit? && s.kex.clearOut && s.kex.initial && !s.kex.strict
  {
    hide TableInv, AllSend, AllRecv, LogInv, TornDown, Closed, Put, Chunked, Sent, Credited, NewChannel;
    if e.TakeData? || e.DeliverData? || e.AdjustWindow? || e.SendChunk? {
      hide KexInitApplied, EcdhLooked, SessionSet, Switched, NewKeysTaken, RekeyStarted, OpenLooked, Inserted;
      assert Next(s, e).kex == s.kex;
    } else {
      hide DataTaken, Delivered, Adjusted, ChunkSent;
    }
  }

  /** Strict key exchange is settled by the first NEWKEYS: no later exchange changes it. */
  lemma {:induction false} StrictSettled(s: Conn, run: seq<Step>)
    requires Inv(s) && KeysInv(s) && ValidRun(s, run) && !s.kex.initial
    ensures After(s, run).kex.strict == s.kex.strict
    decreases run
  {
    hide Inv, Enabled, Next;
    if run != [] {
      StepInv(s, run[0]);
      KeysStep(s, run[0]);
      StillKeyed(s, run[0]);
      StrictSettled(Next(s, run[0]), run[1..]);
    }
  }

  lemma StillKeyed(s: Conn, e: Step)
    requires Enabled(s, e) && !s.kex.initial
    ensures !Next(s, e).kex.initial
  {
    hide TornDown, Closed, Put, SenderWrote, Chunked, Sent, Credited, NewChannel;
    if e.TakeData? || e.DeliverData? || e.AdjustWindow? || e.SendChunk? {
      hide KexInitApplied, EcdhLooked, SessionSet, Switched, NewKeysTaken, RekeyStarted, OpenLooked, Inserted;
      assert Next(s, e).kex == s.kex;
    } else {
      hide DataTaken, Delivered, Adjusted, ChunkSent;
    }
  }

  /** An exchange sets it exactly when it is the first and the client offers it. */
  lemma StrictChosenIff(s: Conn)
    requires Enabled(s, ApplyKexInit)
    ensures Next(s, ApplyKexInit).kex.strict <==>
              s.kex.strict || (s.pc.phase == AwaitInit && s.kex.initial && s.pc.offersStrict)
  {
  }

  /** Frame i is the first under its key. */
  predicate FirstUnderKey(log: seq<Sealed>, i: nat)
    requires i < |log|
  {
    i == 0 || log[i - 1].epoch != log[i].epoch
  }

  /** Under strict key exchange every key starts at zero; otherwise the numbers go on across keys. */
  predicate Numbered(strict: bool, out: Sender)
  {
    if strict then
      && (forall i: nat :: i < |out.log| && FirstUnderKey(out.log, i) ==> out.log[i].seqNo == 0)
      && (out.epoch > 0 && (out.log == [] || out.log[|out.log| - 1].epoch != out.epoch) ==> out.outSeq == 0)
    else
      && (forall i: nat :: 0 < i < |out.log| ==> out.log[i].seqNo == Following(out.log[i - 1]))
      && (out.log != [] ==> out.outSeq == Following(out.log[|out.log| - 1]))
  }

  lemma WroteNumbered(strict: bool, out: Sender, clearOut: bool, ok: bool)
    requires Numbered(strict, out) && (clearOut <==> out.epoch == 0) && (clearOut ==> out.log == [])
    ensures Numbered(strict, SenderWrote(out, clearOut, ok))
  {
    var r := SenderWrote(out, clearOut, ok);
    if !clearOut && out.outSeq <= MAX_SEQ {
      assert forall i: nat :: i < |out.log| ==> r.log[i] == out.log[i];
      if strict {
        forall i: nat | i < |r.log| && FirstUnderKey(r.log, i)
          ensures r.log[i].seqNo == 0
        {
          if i < |out.log| {
            assert FirstUnderKey(out.log, i);
          }
        }
      }
    }
  }

  lemma SwitchNumbered(s: Conn)
    requires Numbered(s.kex.strict, s.out) && Within(s.out.log, s.out.epoch)
    ensures Numbered(s.kex.strict, Switched(s).out)
  {
  }

  lemma NumberedStep(s: Conn, e: Step)
    requires Inv(s) && Enabled(s, e) && KeysInv(s) && Numbered(s.kex.strict, s.out)
    ensures Numbered(Next(s, e).kex.strict, Next(s, e).out)
  {
    hide TableInv, AllSend, AllRecv, KexInv, TornDown, Closed, Put, Chunked, Sent, Credited, NewChannel, Numbered,
      SenderWrote, Counting, Within;
    KeysStep(s, e);
    if e.Write? || e.SendChunk? {
      WroteNumbered(s.kex.strict, s.out, s.kex.clearOut, e.ok);
      assert Next(s, e).kex == s.kex && Next(s, e).out == SenderWrote(s.out, s.kex.clearOut, e.ok);
    } else if e.SwitchEcdh? {
      SwitchNumbered(s);
    } else {
      assert Next(s, e).out == s.out by {
        hide Inv, KeysInv;
      }
      if Next(s, e).kex.strict != s.kex.strict {
        NothingNumbered(s.out);
      }
    }
  }

  lemma NothingNumbered(out: Sender)
    requires out.epoch == 0 && out.log == []
    ensures Numbered(true, out) && Numbered(false, out)
  {
  }

  lemma {:induction false} NumberedRun(s: Conn, run: seq<Step>)
    requires Inv(s) && KeysInv(s) && ValidRun(s, run) && Numbered(s.kex.strict, s.out)
    ensures KeysInv(After(s, run)) && Numbered(After(s, run).kex.strict, After(s, run).out)
    decreases run
  {
    hide Inv, Enabled, Next, KeysInv, Numbered;
    if run != [] {
      StepInv(s, run[0]);
      KeysStep(s, run[0]);
      NumberedStep(s, run[0]);
      NumberedRun(Next(s, run[0]), run[1..]);
    }
  }

  /**
   Strict key exchange, over all runs: with it the first frame under each key has
   number zero; without it each frame has the number after the one before, whatever
   the keys.
   */
  lemma NumbersAcrossKeys(s: Conn)
    requires Reachable(s)
    ensures s.kex.strict ==>
              forall i: nat :: i < |s.out.log| && FirstUnderKey(s.out.log, i) ==> s.out.log[i].seqNo == 0
    ensures !s.kex.strict ==>
              forall i: nat :: 0 < i < |s.out.log| ==> s.out.log[i].seqNo == Following(s.out.log[i - 1])
  {
    hide Inv, ValidRun, After;
    var maxChannels, run :| ValidRun(Start(maxChannels), run) && s == After(Start(maxChannels), run);
    StartInv(maxChannels);
    NumberedRun(Start(maxChannels), run);
  }

  /** The receive number against the packets of the run. */
  predicate Counted(s: Conn, b: Book)
  {
    && s.inSeq == (if s.kex.strict then b.since else b.all)
    && (s.kex.initial ==> b.since == b.all)
  }

  lemma CountedStep(s: Conn, e: Step, b: Book)
    requires Inv(s) && Enabled(s, e) && KeysInv(s) && Counted(s, b)
    ensures Counted(Next(s, e), Booked(s, e, b))
  {
    hide TableInv, AllSend, AllRecv, LogInv, TornDown, Closed, Put, Chunked, Sent, Credited, NewChannel, SenderWrote;
    KeysStep(s, e);
    if e.TakeData? || e.DeliverData? || e.AdjustWindow? || e.SendChunk? {
      hide KexInitApplied, EcdhLooked, SessionSet, Switched, NewKeysTaken, RekeyStarted, OpenLooked, Inserted;
      assert Next(s, e).kex == s.kex && Next(s, e).inSeq == s.inSeq;
    } else {
      hide DataTaken, Delivered, Adjusted, ChunkSent;
    }
  }

  lemma {:induction false} CountedRun(s: Conn, run: seq<Step>, b: Book)
    requires Inv(s) && KeysInv(s) && ValidRun(s, run) && Counted(s, b)
    ensures Counted(After(s, run), BookOf(s, run, b))
    decreases run
  {
    hide Inv, Enabled, Next, KeysInv, Counted, Booked;
    if run != [] {
      StepInv(s, run[0]);
      KeysStep(s, run[0]);
      CountedStep(s, run[0], b);
      CountedRun(Next(s, run[0]), run[1..], Booked(s, run[0], b));
    }
  }

  /** The receive number is the number of packets, of the whole run or, under strict key exchange, since NEWKEYS. */
  lemma PacketsCounted(maxChannels: nat, run: seq<Step>)
    requires ValidRun(Start(maxChannels), run)
    ensures var s := After(Start(maxChannels), run);
            var b := BookOf(Start(maxChannels), run, BLANK);
            s.inSeq == if s.kex.strict then b.since else b.all
  {
    hide Inv, Booked, Next, Enabled;
    StartInv(maxChannels);
    CountedRun(Start(maxChannels), run, BLANK);
  }
}
