/** What every step of the connection keeps, and what holds in every reachable state. */
module PlaneInvariant {
  import opened Plane

  //////////////////////////////////////////////////////////////////////////////
  // The invariant
  //////////////////////////////////////////////////////////////////////////////

  /** Key exchange: which codecs are in force and which are pending in each phase. */
  predicate KexInv(k: Kex, pc: Pc)
  {
    && (k.pendingIn <==> k.phase.AwaitNewKeys?)
    && (!k.clearIn ==> !k.clearOut && k.sessionID.Some?)
    && (k.authed ==> !k.clearIn)
    && (k.phase.Ready? ==> !k.clearIn)
    && (k.phase.AwaitNewKeys? ==> !k.clearOut && k.sessionID.Some?)
    && (k.phase.AwaitInit? <==> !k.clientKex)
    && (pc.EcdhChecked? || pc.EcdhHashed? ==> k.phase.AwaitEcdh?)
    && (pc.EcdhHashed? ==> k.sessionID.Some?)
    && (pc.Dialing? ==> k.authed && pc.maxPkt > 0)
    && (pc.KexInitSeen? ==> k.phase == pc.phase || (pc.phase.Ready? && k.phase.AwaitInit? && k.authed))
  }

  /** The channel table: bounded, only open channels, each under its own local id. */
  predicate TableInv(c: Channels, authed: bool, maxChannels: nat)
  {
    && (|c.table| > 0 ==> authed)
    && |c.table| <= maxChannels
    && c.nextLocal == |c.objects| % 0x1_0000_0000
    && (forall h :: 0 <= h < |c.objects| ==> c.objects[h].localID == h % 0x1_0000_0000)
    && (forall id :: id in c.table ==>
          c.table[id] < |c.objects| && c.objects[c.table[id]].localID == id && !c.objects[c.table[id]].closed)
  }

  function Sum(chunks: seq<seq<nat>>): (n: nat)
  {
    if chunks == [] then 0 else Sum(chunks[..|chunks| - 1]) + |chunks[|chunks| - 1]|
  }

  function Concat(chunks: seq<seq<nat>>): (data: seq<nat>)
    ensures |data| == Sum(chunks)
  {
    if chunks == [] then [] else Concat(chunks[..|chunks| - 1]) + chunks[|chunks| - 1]
  }

  /** Send side of a channel: the window is conserved and the chunks are the input. */
  predicate SendInv(ch: Channel)
  {
    && ch.maxPkt > 0
    && ch.window + ch.debited == ch.openWindow + ch.adjusted
    && ch.debited == Sum(ch.chunks) + ch.writing
    && ch.writing <= |ch.rest| && ch.writing <= ch.maxPkt
    && Concat(ch.chunks) + ch.rest == ch.input
    && (forall i :: 0 <= i < |ch.chunks| ==> 0 < |ch.chunks[i]| <= ch.maxPkt)
  }

  predicate AllSend(c: Channels)
  {
    forall h :: 0 <= h < |c.objects| ==> SendInv(c.objects[h])
  }

  /** The bytes of channel h that the serve loop is handing to the backend. */
  function InFlight(pc: Pc, h: nat): (n: nat)
  {
    if pc.Delivering? && pc.h == h then pc.size else 0
  }

  /** Receive side of an open channel. */
  predicate RecvInv(ch: Channel, inFlight: nat)
  {
    && ch.recvWindow + ch.consumed + inFlight == INITIAL_RECV
    && ch.consumed < ADJUST_THRESHOLD
    && inFlight <= MAX_RECV
    && ch.recvWindow + ch.received == ch.granted
  }

  /** The receive side of the open channels, for a given place of the serve loop. */
  predicate OpenRecv(c: Channels, pc: Pc)
  {
    forall id :: id in c.table && c.table[id] < |c.objects| ==>
      RecvInv(c.objects[c.table[id]], InFlight(pc, c.table[id]))
  }

  predicate AllRecv(c: Channels, pc: Pc)
  {
    && OpenRecv(c, pc)
    && (pc.Delivering? ==> pc.h < |c.objects| && c.objects[pc.h].localID == pc.id)
  }

  /** Within an epoch the numbers go on, and only a failed write repeats one. */
  predicate Counting(log: seq<Sealed>)
  {
    forall i, j :: 0 <= i < j < |log| ==>
      && log[i].epoch <= log[j].epoch
      && (j == i + 1 && log[i].epoch == log[j].epoch ==> log[j].seqNo == Following(log[i]))
  }

  predicate Within(log: seq<Sealed>, epoch: nat)
  {
    forall i :: 0 <= i < |log| ==> log[i].epoch <= epoch && log[i].seqNo <= MAX_SEQ
  }

  predicate LogInv(out: Sender, clearOut: bool)
  {
    && out.outSeq <= MAX_SEQ + 1
    && (clearOut ==> out.log == [] && out.epoch == 0)
    && Within(out.log, out.epoch)
    && Counting(out.log)
    && (|out.log| > 0 && out.log[|out.log| - 1].epoch == out.epoch ==>
          out.outSeq == Following(out.log[|out.log| - 1]))
  }

  /** The number after a frame: the same one if its write failed. */
  function Following(f: Sealed): (n: nat)
  {
    if f.ok then f.seqNo + 1 else f.seqNo
  }

  predicate Inv(s: Conn)
  {
    && KexInv(s.kex, s.pc)
    && TableInv(s.chans, s.kex.authed, s.maxChannels)
    && AllSend(s.chans)
    && AllRecv(s.chans, s.pc)
    && LogInv(s.out, s.kex.clearOut)
    && s.inSeq <= MAX_SEQ + 1
  }

  lemma StartInv(maxChannels: nat)
    ensures Inv(Start(maxChannels))
  {
  }

  //////////////////////////////////////////////////////////////////////////////
  // Key exchange and sender
  //////////////////////////////////////////////////////////////////////////////

  lemma KexStep(s: Conn, e: Step)
    requires Inv(s) && Enabled(s, e)
    ensures KexInv(Next(s, e).kex, Next(s, e).pc)
  {
    hide AllSend, AllRecv, TableInv, LogInv, TornDown, Closed, NewChannel, Put, SenderWrote, Chunked, Sent, Credited;
    if e.TakeData? || e.DeliverData? || e.AdjustWindow? || e.SendChunk? || e.BackendRead? || e.Debit? {
      hide KexInitApplied, EcdhLooked, SessionSet, Switched, NewKeysTaken, RekeyStarted;
      hide OpenLooked, Inserted, Took, Widened;
      assert KexInv(Next(s, e).kex, Next(s, e).pc);
    } else {
      hide DataTaken, Delivered, Adjusted, ChunkSent, Fed;
      assert KexInv(Next(s, e).kex, Next(s, e).pc);
    }
  }

  lemma LogStep(s: Conn, e: Step)
    requires Inv(s) && Enabled(s, e)
    ensures LogInv(Next(s, e).out, Next(s, e).kex.clearOut)
  {
    hide AllSend, AllRecv, TableInv, TornDown, Closed, NewChannel, Put, Chunked, Sent, Credited, SenderWrote, LogInv;
    if e.Write? || e.SendChunk? {
      WriteLog(s.out, s.kex.clearOut, e.ok);
    } else if e.SwitchEcdh? {
      SwitchLog(s.out, s.kex.clearOut, s.kex.strict);
    }
  }

  lemma SwitchLog(out: Sender, clearOut: bool, strict: bool)
    requires LogInv(out, clearOut)
    ensures LogInv(out.(epoch := out.epoch + 1, outSeq := if strict then 0 else out.outSeq), false)
  {
    hide Counting;
  }

  lemma WriteLog(out: Sender, clearOut: bool, ok: bool)
    requires LogInv(out, clearOut)
    ensures LogInv(SenderWrote(out, clearOut, ok), clearOut)
  {
    hide Counting;
    if out.outSeq <= MAX_SEQ && !clearOut {
      Continue(out.log, Sealed(out.epoch, out.outSeq, ok));
    }
  }

  lemma Continue(log: seq<Sealed>, f: Sealed)
    requires Counting(log) && Within(log, f.epoch)
    requires |log| > 0 && log[|log| - 1].epoch == f.epoch ==> f.seqNo == Following(log[|log| - 1])
    ensures Counting(log + [f])
  {
    hide Following;
    var t := log + [f];
    forall i, j | 0 <= i < j < |t|
      ensures t[i].epoch <= t[j].epoch
      ensures j == i + 1 && t[i].epoch == t[j].epoch ==> t[j].seqNo == Following(t[i])
    {
      if j < |log| {
        assert t[i] == log[i] && t[j] == log[j];
      }
    }
  }

  //////////////////////////////////////////////////////////////////////////////
  // The table
  //////////////////////////////////////////////////////////////////////////////

  lemma TableStep(s: Conn, e: Step)
    requires Inv(s) && Enabled(s, e)
    ensures TableInv(Next(s, e).chans, Next(s, e).kex.authed, s.maxChannels)
  {
    hide AllSend, AllRecv, LogInv, SenderWrote, Closed, TornDown, TableInv, Put;
    hide Chunked, Sent, Credited, Took, Widened, Fed;
    var c := s.chans;
    var authed := s.kex.authed;
    match e
    case Authenticate =>
      AuthTable(c, authed, s.maxChannels);
    case CloseChannel(id) =>
      CloseTable(c, id, authed, s.maxChannels);
    case DeliverData(ok) =>
      CloseTable(c, s.pc.id, authed, s.maxChannels);
      ChannelTable(s, e);
    case InsertOpen =>
      if |c.table| < s.maxChannels {
        InsertTable(c, NewChannel(c.nextLocal, s.pc.sender, s.pc.window, s.pc.maxPkt), s.maxChannels);
      }
    case Stop =>
      TearTable(c, authed, s.maxChannels);
    case TakeData(_, _) => ChannelTable(s, e);
    case AdjustWindow(_, _) => ChannelTable(s, e);
    case BackendRead(_, _) => ChannelTable(s, e);
    case Debit(_) => ChannelTable(s, e);
    case SendChunk(_, _) => ChannelTable(s, e);
    case _ =>
  }

  /** The steps that change one channel. */
  lemma ChannelTable(s: Conn, e: Step)
    requires Inv(s) && Enabled(s, e)
    requires e.TakeData? || e.AdjustWindow? || e.BackendRead? || e.Debit? || e.SendChunk? || e.DeliverData?
    ensures (e.DeliverData? && !e.ok) || TableInv(Next(s, e).chans, s.kex.authed, s.maxChannels)
  {
    hide AllSend, AllRecv, LogInv, SenderWrote, Closed, TableInv, Put, KexInv;
    var c := s.chans;
    var authed := s.kex.authed;
    match e
    case DeliverData(ok) =>
      if s.pc.h < |c.objects| {
        PutTable(c, s.pc.h, Credited(c.objects[s.pc.h], s.pc.size), authed, s.maxChannels);
      }
    case TakeData(id, size) =>
      if id in c.table && c.table[id] < |c.objects| && size <= c.objects[c.table[id]].recvWindow {
        PutTable(c, c.table[id], Took(c.objects[c.table[id]], size), authed, s.maxChannels);
      }
    case AdjustWindow(id, add) =>
      if id in c.table && c.table[id] < |c.objects| && c.objects[c.table[id]].window + add <= 0xFFFF_FFFF {
        PutTable(c, c.table[id], Widened(c.objects[c.table[id]], add), authed, s.maxChannels);
      }
    case BackendRead(h, data) =>
      PutTable(c, h, Fed(c.objects[h], data), authed, s.maxChannels);
    case Debit(h) =>
      PutTable(c, h, Chunked(c.objects[h]), authed, s.maxChannels);
    case SendChunk(h, ok) =>
      PutTable(c, h, c.objects[h].(failed := true), authed, s.maxChannels);
      if c.objects[h].writing <= |c.objects[h].rest| {
        PutTable(c, h, Sent(c.objects[h]), authed, s.maxChannels);
      }
  }

  lemma AuthTable(c: Channels, authed: bool, maxChannels: nat)
    requires TableInv(c, authed, maxChannels)
    ensures TableInv(c, true, maxChannels)
  {
  }

  lemma PutTable(c: Channels, h: nat, ch: Channel, authed: bool, maxChannels: nat)
    requires TableInv(c, authed, maxChannels) && h < |c.objects|
    requires ch.localID == c.objects[h].localID && ch.closed == c.objects[h].closed
    ensures TableInv(Put(c, h, ch), authed, maxChannels)
  {
  }

  lemma CloseTable(c: Channels, id: u32, authed: bool, maxChannels: nat)
    requires TableInv(c, authed, maxChannels)
    ensures TableInv(Closed(c, id), authed, maxChannels)
  {
    var t := Closed(c, id);
    if id in c.table {
      RemovedKey(c.table, id);
      forall k | k in t.table
        ensures t.table[k] < |t.objects| && t.objects[t.table[k]].localID == k && !t.objects[t.table[k]].closed
      {
        assert k in c.table && k != id;
        assert c.table[k] != c.table[id];
      }
    }
  }

  lemma RemovedKey(table: map<u32, nat>, id: u32)
    requires id in table
    ensures |table - {id}| == |table| - 1
  {
    assert table.Keys == (table - {id}).Keys + {id};
  }

  lemma AddedKey(table: map<u32, nat>, id: u32, h: nat)
    ensures |table[id := h]| <= |table| + 1
  {
    assert table[id := h].Keys == table.Keys + {id};
  }

  lemma NextNumber(n: nat)
    ensures (n % 0x1_0000_0000 + 1) % 0x1_0000_0000 == (n + 1) % 0x1_0000_0000
  {
  }

  lemma InsertTable(c: Channels, ch: Channel, maxChannels: nat)
    requires TableInv(c, true, maxChannels) && |c.table| < maxChannels
    requires ch.localID == c.nextLocal && !ch.closed
    ensures var t := Channels(c.objects + [ch], c.table[c.nextLocal := |c.objects|], (c.nextLocal + 1) % 0x1_0000_0000);
            TableInv(t, true, maxChannels)
  {
    var t := Channels(c.objects + [ch], c.table[c.nextLocal := |c.objects|], (c.nextLocal + 1) % 0x1_0000_0000);
    AddedKey(c.table, c.nextLocal, |c.objects|);
    NextNumber(|c.objects|);
    assert t.nextLocal == |t.objects| % 0x1_0000_0000;
    forall id | id in t.table
      ensures t.table[id] < |t.objects| && t.objects[t.table[id]].localID == id && !t.objects[t.table[id]].closed
    {
      if id != c.nextLocal {
        assert id in c.table;
      }
    }
  }

  lemma TearTable(c: Channels, authed: bool, maxChannels: nat)
    requires TableInv(c, authed, maxChannels)
    ensures TableInv(TornDown(c), authed, maxChannels)
  {
    hide TornDown;
  }

  //////////////////////////////////////////////////////////////////////////////
  // Send side
  //////////////////////////////////////////////////////////////////////////////

  lemma SendStep(s: Conn, e: Step)
    requires Inv(s) && Enabled(s, e)
    ensures AllSend(Next(s, e).chans)
  {
    hide SendInv, AllRecv, LogInv, SenderWrote, TableInv, TornDown, Chunked, Sent;
    var c := s.chans;
    match e
    case InsertOpen =>
      FreshSend(NewChannel(c.nextLocal, s.pc.sender, s.pc.window, s.pc.maxPkt));
    case CloseChannel(id) =>
      CloseSend(c, id);
    case DeliverData(ok) =>
      CloseSend(c, s.pc.id);
      if s.pc.h < |c.objects| {
        SameSend(c.objects[s.pc.h], Credited(c.objects[s.pc.h], s.pc.size));
      }
    case Stop =>
      forall h | 0 <= h < |c.objects| {
        SameSend(c.objects[h], c.objects[h].(closed := true));
      }
    case TakeData(id, size) =>
      if id in c.table && c.table[id] < |c.objects| && size <= c.objects[c.table[id]].recvWindow {
        SameSend(c.objects[c.table[id]], Took(c.objects[c.table[id]], size));
      }
    case AdjustWindow(id, add) =>
      if id in c.table && c.table[id] < |c.objects| && c.objects[c.table[id]].window + add <= 0xFFFF_FFFF {
        AdjustSend(c.objects[c.table[id]], add);
      }
    case BackendRead(h, data) =>
      BackendSend(c.objects[h], data);
    case Debit(h) =>
      DebitSend(c.objects[h]);
    case SendChunk(h, ok) =>
      SameSend(c.objects[h], c.objects[h].(failed := true));
      ChunkSend(c.objects[h]);
    case _ =>
  }

  lemma CloseSend(c: Channels, id: u32)
    requires AllSend(c)
    ensures AllSend(Closed(c, id))
  {
    hide SendInv;
    if id in c.table && c.table[id] < |c.objects| {
      SameSend(c.objects[c.table[id]], c.objects[c.table[id]].(closed := true));
    }
  }

  predicate SendSide(ch: Channel, t: Channel)
  {
    && ch.maxPkt == t.maxPkt && ch.window == t.window && ch.debited == t.debited && ch.openWindow == t.openWindow
    && ch.adjusted == t.adjusted && ch.chunks == t.chunks && ch.writing == t.writing && ch.rest == t.rest
    && ch.input == t.input
  }

  lemma SameSend(ch: Channel, t: Channel)
    requires SendInv(ch) && SendSide(ch, t)
    ensures SendInv(t)
  {
    hide Sum, Concat;
  }

  lemma FreshSend(ch: Channel)
    requires ch.chunks == [] && ch.rest == [] && ch.input == [] && ch.writing == 0
    requires ch.debited == 0 && ch.adjusted == 0 && ch.openWindow == ch.window
    ensures ch.maxPkt > 0 ==> SendInv(ch)
  {
  }

  lemma DebitSend(ch: Channel)
    requires SendInv(ch) && ch.window > 0 && ch.rest != [] && ch.writing == 0
    ensures SendInv(Chunked(ch)) && Chunked(ch).writing > 0
  {
    hide Sum, Concat;
  }

  lemma ChunkSend(ch: Channel)
    requires SendInv(ch) && ch.writing > 0
    ensures SendInv(Sent(ch))
  {
    var chunk := ch.rest[..ch.writing];
    var t := ch.chunks + [chunk];
    assert t[..|ch.chunks|] == ch.chunks;
    assert Concat(t) + ch.rest[ch.writing..] == Concat(ch.chunks) + (chunk + ch.rest[ch.writing..]);
    assert chunk + ch.rest[ch.writing..] == ch.rest;
  }

  lemma BackendSend(ch: Channel, data: seq<nat>)
    requires SendInv(ch) && ch.rest == [] && ch.writing == 0
    ensures SendInv(Fed(ch, data))
  {
    hide Sum, Concat;
  }

  lemma AdjustSend(ch: Channel, add: u32)
    requires SendInv(ch) && ch.window + add <= 0xFFFF_FFFF
    ensures SendInv(Widened(ch, add))
  {
    hide Sum, Concat;
  }

  //////////////////////////////////////////////////////////////////////////////
  // Receive side
  //////////////////////////////////////////////////////////////////////////////

  predicate Holds(c: Channels, h: nat)
  {
    exists id :: id in c.table && c.table[id] == h
  }

  /** A change of channel h, and of the serve loop's place as far as h is concerned. */
  lemma PutRecv(c: Channels, pc: Pc, pc': Pc, h: nat, ch: Channel)
    requires OpenRecv(c, pc) && h < |c.objects|
    requires (pc.Delivering? && pc.h != h) || (pc'.Delivering? && pc'.h != h) ==> pc == pc'
    requires Holds(c, h) ==> RecvInv(ch, InFlight(pc', h))
    ensures OpenRecv(Put(c, h, ch), pc')
  {
    hide RecvInv;
    var t := Put(c, h, ch);
    forall id | id in t.table && t.table[id] < |t.objects|
      ensures RecvInv(t.objects[t.table[id]], InFlight(pc', t.table[id]))
    {
      assert c.table[id] == h ==> Holds(c, h);
    }
  }

  lemma CloseRecv(c: Channels, pc: Pc, pc': Pc, id: u32, authed: bool, maxChannels: nat)
    requires OpenRecv(c, pc) && TableInv(c, authed, maxChannels)
    requires pc' == pc || (pc'.Idle? && pc.Delivering? && pc.h < |c.objects|
                           && (c.objects[pc.h].localID == id || c.objects[pc.h].closed))
    ensures OpenRecv(Closed(c, id), pc')
  {
    hide RecvInv;
    var t := Closed(c, id);
    forall k | k in t.table && t.table[k] < |t.objects|
      ensures RecvInv(t.objects[t.table[k]], InFlight(pc', t.table[k]))
    {
      assert k in c.table && c.table[k] < |c.objects|;
      assert RecvInv(c.objects[c.table[k]], InFlight(pc, c.table[k]));
      assert k != id || t == c;
      assert id in c.table ==> c.table[id] != c.table[k] || t == c;
      assert t.objects[t.table[k]] == c.objects[c.table[k]];
      assert pc' != pc ==> pc.h != c.table[k] || t == c;
    }
  }

  lemma IdleRecv(c: Channels, pc: Pc, pc': Pc)
    requires OpenRecv(c, pc) && !pc.Delivering? && !pc'.Delivering?
    ensures OpenRecv(c, pc')
  {
    hide RecvInv;
  }

  predicate RecvSide(ch: Channel, t: Channel)
  {
    && ch.recvWindow == t.recvWindow && ch.consumed == t.consumed
    && ch.received == t.received && ch.granted == t.granted
  }

  /** A channel held by the table has a sound receive side. */
  lemma HeldRecv(c: Channels, pc: Pc, h: nat)
    requires OpenRecv(c, pc) && h < |c.objects| && Holds(c, h)
    ensures RecvInv(c.objects[h], InFlight(pc, h))
  {
  }

  /** Forwarder steps leave the receive side alone. */
  lemma ForwardRecv(c: Channels, pc: Pc, h: nat, ch: Channel)
    requires OpenRecv(c, pc) && h < |c.objects| && RecvSide(c.objects[h], ch)
    ensures OpenRecv(Put(c, h, ch), pc)
  {
    hide OpenRecv, Put;
    if Holds(c, h) {
      HeldRecv(c, pc, h);
    }
    PutRecv(c, pc, pc, h, ch);
  }

  lemma TakeRecv(c: Channels, pc: Pc, id: u32, size: nat)
    requires OpenRecv(c, pc) && !pc.Delivering? && id in c.table && c.table[id] < |c.objects|
    requires size <= MAX_RECV && size <= c.objects[c.table[id]].recvWindow
    ensures OpenRecv(Put(c, c.table[id], Took(c.objects[c.table[id]], size)), Delivering(c.table[id], id, size))
  {
    hide OpenRecv, Put;
    var h := c.table[id];
    assert Holds(c, h);
    HeldRecv(c, pc, h);
    PutRecv(c, pc, Delivering(h, id, size), h, Took(c.objects[h], size));
  }

  lemma CreditRecv(c: Channels, pc: Pc)
    requires OpenRecv(c, pc) && pc.Delivering? && pc.h < |c.objects|
    ensures OpenRecv(Put(c, pc.h, Credited(c.objects[pc.h], pc.size)), Idle)
  {
    hide OpenRecv, Put;
    if Holds(c, pc.h) {
      HeldRecv(c, pc, pc.h);
    }
    PutRecv(c, pc, Idle, pc.h, Credited(c.objects[pc.h], pc.size));
  }

  lemma InsertRecv(c: Channels, pc: Pc, ch: Channel)
    requires OpenRecv(c, pc) && !pc.Delivering? && RecvInv(ch, 0)
    ensures var t := Channels(c.objects + [ch], c.table[c.nextLocal := |c.objects|], (c.nextLocal + 1) % 0x1_0000_0000);
            OpenRecv(t, Idle)
  {
    hide RecvInv;
    var t := Channels(c.objects + [ch], c.table[c.nextLocal := |c.objects|], (c.nextLocal + 1) % 0x1_0000_0000);
    forall id | id in t.table && t.table[id] < |t.objects|
      ensures RecvInv(t.objects[t.table[id]], InFlight(Idle, t.table[id]))
    {
      if id != c.nextLocal && t.table[id] == |c.objects| {
        assert t.objects[t.table[id]] == ch;
      } else if id != c.nextLocal {
        assert RecvInv(c.objects[c.table[id]], InFlight(pc, c.table[id]));
      }
    }
  }

  lemma RecvStep(s: Conn, e: Step)
    requires Inv(s) && Enabled(s, e)
    ensures AllRecv(Next(s, e).chans, Next(s, e).pc)
  {
    hide AllSend, LogInv, SenderWrote, TornDown, KexInv, OpenRecv, Put, Closed, TableInv;
    var c, pc, t := s.chans, s.pc, Next(s, e);
    match e
    case InsertOpen =>
      IdleRecv(c, pc, Idle);
      InsertRecv(c, pc, NewChannel(c.nextLocal, pc.sender, pc.window, pc.maxPkt));
    case CloseChannel(id) =>
      CloseRecv(c, pc, pc, id, s.kex.authed, s.maxChannels);
      ClosedIds(c, id);
    case DeliverData(ok) =>
      CreditRecv(c, pc);
      CloseRecv(c, pc, Idle, pc.id, s.kex.authed, s.maxChannels);
      if c.objects[pc.h].closed {
        ClosedRecv(c, pc, s.kex.authed, s.maxChannels);
      }
    case Stop =>
      NoneRecv(t.chans, t.pc);
    case TakeData(id, size) =>
      IdleRecv(c, pc, Stopped);
      if id in c.table && c.table[id] < |c.objects| && size <= MAX_RECV && size <= c.objects[c.table[id]].recvWindow {
        TakeRecv(c, pc, id, size);
        TableIds(c, id, s.kex.authed, s.maxChannels);
        PutIds(c, c.table[id], Took(c.objects[c.table[id]], size));
      }
    case AdjustWindow(id, add) =>
      IdleRecv(c, pc, Stopped);
      if id in c.table && c.table[id] < |c.objects| && c.objects[c.table[id]].window + add <= 0xFFFF_FFFF {
        ForwardRecv(c, pc, c.table[id], Widened(c.objects[c.table[id]], add));
      }
    case BackendRead(h, data) =>
      ForwardRecv(c, pc, h, Fed(c.objects[h], data));
      PutIds(c, h, Fed(c.objects[h], data));
    case Debit(h) =>
      ForwardRecv(c, pc, h, Chunked(c.objects[h]));
      PutIds(c, h, Chunked(c.objects[h]));
    case SendChunk(h, ok) =>
      PutIds(c, h, c.objects[h].(failed := true));
      ForwardRecv(c, pc, h, c.objects[h].(failed := true));
      if c.objects[h].writing <= |c.objects[h].rest| {
        ForwardRecv(c, pc, h, Sent(c.objects[h]));
        PutIds(c, h, Sent(c.objects[h]));
      }
    case _ =>
      if !pc.Delivering? {
        IdleRecv(c, pc, t.pc);
      }
  }

  lemma NoneRecv(c: Channels, pc: Pc)
    requires c.table == map[]
    ensures OpenRecv(c, pc)
  {
  }

  /** A closed channel is in no table entry. */
  lemma ClosedRecv(c: Channels, pc: Pc, authed: bool, maxChannels: nat)
    requires TableInv(c, authed, maxChannels) && OpenRecv(c, pc) && pc.Delivering? && pc.h < |c.objects|
             && c.objects[pc.h].closed
    ensures OpenRecv(c, Idle)
  {
    hide RecvInv;
  }

  lemma TableIds(c: Channels, id: u32, authed: bool, maxChannels: nat)
    requires TableInv(c, authed, maxChannels) && id in c.table
    ensures c.table[id] < |c.objects| && c.objects[c.table[id]].localID == id
  {
  }

  lemma PutIds(c: Channels, h: nat, ch: Channel)
    requires h < |c.objects| && ch.localID == c.objects[h].localID
    ensures var t := Put(c, h, ch);
            && |t.objects| == |c.objects|
            && forall k :: 0 <= k < |c.objects| ==> t.objects[k].localID == c.objects[k].localID
  {
  }

  lemma ClosedIds(c: Channels, id: u32)
    ensures var t := Closed(c, id);
            && |t.objects| == |c.objects|
            && forall k :: 0 <= k < |c.objects| ==> t.objects[k].localID == c.objects[k].localID
  {
  }

  /** Every step keeps the invariant. */
  lemma StepInv(s: Conn, e: Step)
    requires Inv(s) && Enabled(s, e)
    ensures Inv(Next(s, e)) && Next(s, e).maxChannels == s.maxChannels
  {
    KexStep(s, e);
    TableStep(s, e);
    SendStep(s, e);
    RecvStep(s, e);
    LogStep(s, e);
    FrameStep(s, e);
  }

  lemma FrameStep(s: Conn, e: Step)
    requires Enabled(s, e) && s.inSeq <= MAX_SEQ + 1
    ensures Next(s, e).maxChannels == s.maxChannels && Next(s, e).inSeq <= MAX_SEQ + 1
  {
    hide TornDown, Closed, Put, SenderWrote, Chunked, Sent, Credited, NewChannel;
  }

  /** Every state of every run satisfies the invariant. */
  lemma {:induction false} RunInv(s: Conn, run: seq<Step>)
    requires Inv(s) && ValidRun(s, run)
    ensures Inv(After(s, run)) && After(s, run).maxChannels == s.maxChannels
    decreases run
  {
    hide Inv, Next, Enabled;
    if run != [] {
      StepInv(s, run[0]);
      RunInv(Next(s, run[0]), run[1..]);
    }
  }
}
