/**
 internal/dataplane: the connection object. Each method is one section under the
 connection's mutex; it makes one step of module Plane and keeps the invariant,
 whatever sections of other threads ran before it.
 */
module Connection {
  import opened Plane
  import opened PlaneInvariant

  //////////////////////////////////////////////////////////////////////////////
  // What a section uses of the invariant
  //////////////////////////////////////////////////////////////////////////////

  lemma DebitSafe(s: Conn, h: nat)
    requires Inv(s) && Enabled(s, Debit(h))
    ensures Inv(Next(s, Debit(h))) && Next(s, Debit(h)) == s.(chans := Put(s.chans, h, Chunked(s.chans.objects[h])))
    ensures 0 < Chunked(s.chans.objects[h]).writing <= s.chans.objects[h].maxPkt
  {
    StepInv(s, Debit(h));
    assert SendInv(s.chans.objects[h]);
    DebitSend(s.chans.objects[h]);
  }

  lemma DeliveringInside(s: Conn)
    requires Inv(s) && s.pc.Delivering?
    ensures s.pc.h < |s.chans.objects|
  {
  }

  lemma ChunkInside(s: Conn, h: nat)
    requires Inv(s) && h < |s.chans.objects|
    ensures s.chans.objects[h].writing <= |s.chans.objects[h].rest|
  {
    assert SendInv(s.chans.objects[h]);
  }

  lemma HandleInside(s: Conn, id: u32)
    requires Inv(s) && id in s.chans.table
    ensures s.chans.table[id] < |s.chans.objects|
  {
  }

  //////////////////////////////////////////////////////////////////////////////
  // The object
  //////////////////////////////////////////////////////////////////////////////

  class SshConnection {
    var kex: Kex
    var out: Sender
    var inSeq: nat
    var chans: Channels
    var maxChannels: nat
    ghost var pc: Pc

    ghost function View(): (s: Conn)
      reads this
    {
      Conn(kex, out, inSeq, chans, pc, maxChannels)
    }

    ghost predicate Valid()
      reads this
    {
      Inv(View())
    }

    constructor (limit: nat)
      ensures View() == Start(limit) && Valid()
    {
      kex := Kex(AwaitInit, true, true, false, false, false, true, None, false);
      out, inSeq := Sender(0, 0, []), 0;
      chans, maxChannels, pc := Channels([], map[], 0), limit, Idle;
      StartInv(limit);
    }

    /** The next packet is read: its number is one up. */
    method ReceiveSection()
      requires Valid() && pc.Idle? && inSeq <= MAX_SEQ
      modifies this
      ensures Valid() && View() == old(View()).(inSeq := old(inSeq) + 1)
    {
      hide Inv;
      StepInv(View(), Receive);
      inSeq := inSeq + 1;
    }

    /** handleKexInit, first section: the phase. */
    method LookKexInitSection(offersStrict: bool) returns (seen: Phase)
      requires Valid() && pc.Idle?
      modifies this
      ensures Valid() && seen == old(kex.phase) && View() == old(View()).(pc := KexInitSeen(seen, offersStrict))
    {
      hide Inv;
      StepInv(View(), LookKexInit(offersStrict));
      seen := kex.phase;
      pc := KexInitSeen(seen, offersStrict);
    }

    /** handleKexInit, second section, on the phase seen in the first. */
    method ApplyKexInitSection(seen: Phase, offersStrict: bool) returns (ok: bool)
      requires Valid() && pc == KexInitSeen(seen, offersStrict)
      modifies this
      ensures Valid() && View() == KexInitApplied(old(View())) && ok == !pc.Stopped?
    {
      hide Inv;
      StepInv(View(), ApplyKexInit);
      match seen
      case Ready =>
        kex := kex.(clientKex := true, phase := AwaitEcdh);
        pc, ok := Idle, true;
      case AwaitInit =>
        kex := kex.(clientKex := true);
        if kex.initial && offersStrict {
          kex := kex.(strict := true);
        }
        kex := kex.(phase := AwaitEcdh);
        pc, ok := Idle, true;
      case _ =>
        pc, ok := Stopped, false;
    }

    /** handleKEX, the three sections around the exchange. */
    method LookEcdhSection() returns (ok: bool)
      requires Valid() && pc.Idle?
      modifies this
      ensures Valid() && View() == EcdhLooked(old(View())) && ok == pc.EcdhChecked?
    {
      hide Inv;
      StepInv(View(), LookEcdh);
      if kex.phase != AwaitEcdh || !kex.clientKex {
        pc, ok := Stopped, false;
      } else {
        pc, ok := EcdhChecked, true;
      }
    }

    method HashEcdhSection(hash: seq<nat>) returns (id: seq<nat>)
      requires Valid() && pc.EcdhChecked? && |hash| == 32
      modifies this
      ensures Valid() && View() == SessionSet(old(View()), hash) && kex.sessionID == Some(id)
    {
      hide Inv;
      StepInv(View(), HashEcdh(hash));
      if kex.sessionID.None? {
        kex := kex.(sessionID := Some(hash));
      }
      pc := EcdhHashed;
      id := kex.sessionID.value;
    }

    method SwitchEcdhSection()
      requires Valid() && pc.EcdhHashed?
      modifies this
      ensures Valid() && View() == Switched(old(View()))
    {
      hide Inv;
      StepInv(View(), SwitchEcdh);
      out := out.(epoch := out.epoch + 1);
      kex := kex.(pendingIn := true, clearOut := false, phase := AwaitNewKeys);
      if kex.strict {
        out := out.(outSeq := 0);
      }
      pc := Idle;
    }

    /** handleNewKeys. */
    method TakeNewKeysSection() returns (ok: bool)
      requires Valid() && pc.Idle?
      modifies this
      ensures Valid() && View() == NewKeysTaken(old(View())) && ok == !pc.Stopped?
    {
      hide Inv;
      StepInv(View(), TakeNewKeys);
      if kex.phase != AwaitNewKeys || !kex.pendingIn {
        pc, ok := Stopped, false;
      } else {
        kex := kex.(pendingIn := false, clearIn := false);
        if kex.strict {
          inSeq := 0;
        }
        kex := kex.(initial := false, phase := Ready);
        ok := true;
      }
    }

    /** The client's signature is good. */
    method AuthenticateSection()
      requires Valid() && pc.Idle? && !kex.clearIn
      modifies this
      ensures Valid() && View() == old(View()).(kex := old(kex).(authed := true))
    {
      hide Inv;
      StepInv(View(), Authenticate);
      kex := kex.(authed := true);
    }

    /** handleChannelOpen: the quota before the dial. */
    method LookOpenSection(sender: u32, window: u32, maxPkt: u32) returns (dial: bool)
      requires Valid() && pc.Idle? && !kex.clearIn
      modifies this
      ensures Valid() && View() == OpenLooked(old(View()), sender, window, maxPkt) && dial == pc.Dialing?
    {
      hide Inv;
      StepInv(View(), LookOpen(sender, window, maxPkt));
      dial := false;
      if !kex.authed {
        pc := Stopped;
      } else if maxPkt != 0 && |chans.table| < maxChannels {
        pc, dial := Dialing(sender, window, maxPkt), true;
      }
    }

    /** handleChannelOpen: the quota again after the dial, and the new channel. */
    method InsertOpenSection(sender: u32, window: u32, maxPkt: u32) returns (inserted: bool)
      requires Valid() && pc == Dialing(sender, window, maxPkt)
      modifies this
      ensures Valid() && View() == Inserted(old(View())) && |chans.table| <= maxChannels
      ensures inserted == (|old(chans.table)| < maxChannels) && inserted == (|chans.objects| > |old(chans.objects)|)
    {
      hide Inv;
      StepInv(View(), InsertOpen);
      inserted := |chans.table| < maxChannels;
      if inserted {
        var localID := chans.nextLocal;
        var next: nat := localID;
        chans := Channels(chans.objects + [NewChannel(localID, sender, window, maxPkt)],
                          chans.table[localID := |chans.objects|], (next + 1) % 0x1_0000_0000);
      }
      pc := Idle;
      QuotaOf(View());
    }

    /** handleChannelData: the section before the backend write. */
    method TakeDataSection(id: u32, size: nat) returns (exceeds: bool)
      requires Valid() && pc.Idle? && !kex.clearIn
      modifies this
      ensures Valid() && View() == DataTaken(old(View()), id, size) && exceeds == pc.Stopped?
    {
      hide Inv;
      StepInv(View(), TakeData(id, size));
      exceeds := false;
      if id in chans.table {
        HandleInside(View(), id);
        var h := chans.table[id];
        var ch := chans.objects[h];
        if size > MAX_RECV || size > ch.recvWindow {
          pc, exceeds := Stopped, true;
        } else {
          chans := Put(chans, h, Took(ch, size));
          pc := Delivering(h, id, size);
        }
      }
    }

    /** handleChannelData: the section after a successful backend write, and the credit to announce. */
    method CreditSection(h: nat, id: u32, size: nat) returns (adjust: nat)
      requires Valid() && pc == Delivering(h, id, size)
      modifies this
      ensures Valid() && View() == Delivered(old(View()), true)
      ensures h < |chans.objects| == |old(chans.objects)|
      ensures adjust == chans.objects[h].granted - old(chans.objects)[h].granted
    {
      hide Inv;
      StepInv(View(), DeliverData(true));
      DeliveringInside(View());
      var ch := chans.objects[h];
      var total := ch.consumed + size;
      if total < ADJUST_THRESHOLD {
        ch, adjust := ch.(consumed := total), 0;
      } else {
        ch, adjust := ch.(consumed := 0, recvWindow := ch.recvWindow + total, granted := ch.granted + total), total;
      }
      chans := Put(chans, h, ch);
      pc := Idle;
    }

    /** handleChannelData: the backend write failed, and the channel is closed unless it already is. */
    method FailedDeliverySection(h: nat, id: u32, size: nat)
      requires Valid() && pc == Delivering(h, id, size)
      modifies this
      ensures Valid() && View() == Delivered(old(View()), false)
    {
      hide Inv;
      StepInv(View(), DeliverData(false));
      DeliveringInside(View());
      if !chans.objects[h].closed && id in chans.table {
        HandleInside(View(), id);
        var g := chans.table[id];
        chans := chans.(objects := chans.objects[g := chans.objects[g].(closed := true)], table := chans.table - {id});
      }
      pc := Idle;
    }

    /** handleWindowAdjust. */
    method AdjustWindowSection(id: u32, add: u32) returns (overflow: bool)
      requires Valid() && pc.Idle? && !kex.clearIn
      modifies this
      ensures Valid() && View() == Adjusted(old(View()), id, add) && overflow == pc.Stopped?
    {
      hide Inv;
      StepInv(View(), AdjustWindow(id, add));
      overflow := false;
      if id in chans.table {
        HandleInside(View(), id);
        var h := chans.table[id];
        var ch := chans.objects[h];
        if add > 0xFFFF_FFFF - ch.window {
          pc, overflow := Stopped, true;
        } else {
          chans := Put(chans, h, Widened(ch, add));
        }
      }
    }

    /** closeChannel. */
    method CloseChannelSection(id: u32) returns (found: bool)
      requires Valid()
      modifies this
      ensures Valid() && View() == old(View()).(chans := Closed(old(chans), id)) && found == (id in old(chans.table))
    {
      hide Inv;
      StepInv(View(), CloseChannel(id));
      found := id in chans.table;
      if found {
        HandleInside(View(), id);
        var h := chans.table[id];
        chans := chans.(objects := chans.objects[h := chans.objects[h].(closed := true)], table := chans.table - {id});
      }
    }

    /** teardownChannels. */
    method TeardownSection()
      requires Valid()
      modifies this
      ensures Valid() && View() == old(View()).(chans := TornDown(old(chans)), pc := Stopped)
    {
      hide Inv, TornDown;
      StepInv(View(), Stop);
      TableInside(View());
      var all := CloseAll(chans);
      chans, pc := all, Stopped;
    }

    /** write: the seal, the transport write and the sequence number, under one lock. */
    method WriteSection(ok: bool) returns (sent: bool)
      requires Valid()
      modifies this
      ensures Valid() && View() == Written(old(View()), ok) && sent == (ok && old(out.outSeq) <= MAX_SEQ)
    {
      hide Inv;
      StepInv(View(), Write(ok));
      sent := false;
      if out.outSeq <= MAX_SEQ {
        if !kex.clearOut {
          out := out.(log := out.log + [Sealed(out.epoch, out.outSeq, ok)]);
        }
        if ok {
          out := out.(outSeq := out.outSeq + 1);
          sent := true;
        }
      }
    }

    /** startRekey. */
    method StartRekeySection() returns (started: bool)
      requires Valid() && kex.authed
      modifies this
      ensures Valid() && View() == RekeyStarted(old(View())) && started == old(kex.phase).Ready?
    {
      hide Inv;
      StepInv(View(), StartRekey);
      started := kex.phase == Ready;
      if started {
        kex := kex.(clientKex := false, phase := AwaitInit);
      }
    }

    /** sendChannelData: the section that debits the window once there is credit and no key exchange. */
    method DebitSection(h: nat) returns (chunk: nat)
      requires Valid() && Enabled(View(), Debit(h))
      modifies this
      ensures Valid() && h < |old(chans.objects)|
      ensures View() == old(View()).(chans := Put(old(chans), h, Chunked(old(chans.objects)[h])))
      ensures 0 < chunk <= old(chans.objects)[h].maxPkt
    {
      hide Inv, Next;
      DebitSafe(View(), h);
      var ch := chans.objects[h];
      chunk := |ch.rest|;
      if chunk > ch.maxPkt {
        chunk := ch.maxPkt;
      }
      if chunk > ch.window {
        chunk := ch.window;
      }
      chans := Put(chans, h, ch.(window := ch.window - chunk, debited := ch.debited + chunk, writing := chunk));
    }

    /** forwardBackend: bytes read from the backend. */
    method BackendReadSection(h: nat, data: seq<nat>)
      requires Valid() && Enabled(View(), BackendRead(h, data))
      modifies this
      ensures Valid() && View() == Next(old(View()), BackendRead(h, data))
    {
      hide Inv;
      StepInv(View(), BackendRead(h, data));
      var ch := chans.objects[h];
      chans := Put(chans, h, ch.(input := ch.input + data, rest := data));
    }

    /** sendChannelData: the write of the chunk; a failed write ends the forwarder. */
    method SendChunkSection(h: nat, ok: bool) returns (sent: bool)
      requires Valid() && Enabled(View(), SendChunk(h, ok))
      modifies this
      ensures Valid() && View() == ChunkSent(old(View()), h, ok) && sent == (ok && old(out.outSeq) <= MAX_SEQ)
    {
      hide Inv;
      ChunkInside(View(), h);
      ghost var s := View();
      StepInv(s, SendChunk(h, ok));
      sent := WriteSection(ok);
      var ch := chans.objects[h];
      if sent {
        chans := Put(chans, h,
                     ch.(chunks := ch.chunks + [ch.rest[..ch.writing]], rest := ch.rest[ch.writing..], writing := 0));
      } else {
        chans := Put(chans, h, ch.(failed := true));
      }
    }
  }

  /** The channels that left the table are closed, the others are as before. */
  ghost predicate Half(c: Channels, d: Channels)
  {
    && |d.objects| == |c.objects|
    && forall h :: 0 <= h < |c.objects| ==>
         d.objects[h] == if Taken(c, d, h) then c.objects[h].(closed := true) else c.objects[h]
  }

  /** Some entry for channel h has left the table. */
  ghost predicate Taken(c: Channels, d: Channels, h: nat)
  {
    exists id :: id in c.table && id !in d.table && c.table[id] == h
  }

  lemma HalfStep(c: Channels, d: Channels, id: u32)
    requires Half(c, d) && id in d.table && d.table.Keys <= c.table.Keys && d.table[id] == c.table[id] < |d.objects|
    ensures var h := d.table[id];
            Half(c, d.(objects := d.objects[h := d.objects[h].(closed := true)], table := d.table - {id}))
  {
    var h := d.table[id];
    var e := d.(objects := d.objects[h := d.objects[h].(closed := true)], table := d.table - {id});
    forall g | 0 <= g < |c.objects|
      ensures Taken(c, e, g) <==> Taken(c, d, g) || g == h
    {
      if Taken(c, d, g) {
        var id' :| id' in c.table && id' !in d.table && c.table[id'] == g;
        assert id' !in e.table;
      }
      if g == h {
        assert id in c.table && id !in e.table && c.table[id] == g;
      }
      if Taken(c, e, g) {
        var id' :| id' in c.table && id' !in e.table && c.table[id'] == g;
      }
    }
  }

  lemma HalfDone(c: Channels, d: Channels)
    requires Half(c, d) && d.table == map[] && d.nextLocal == c.nextLocal
    ensures d == TornDown(c)
  {
    forall h | 0 <= h < |c.objects|
      ensures Taken(c, d, h) <==> h in c.table.Values
    {
      if h in c.table.Values {
        var id :| id in c.table && c.table[id] == h;
        assert id !in d.table;
      }
    }
    assert d.objects == TornDown(c).objects;
  }

  lemma TableInside(s: Conn)
    requires Inv(s)
    ensures forall id :: id in s.chans.table ==> s.chans.table[id] < |s.chans.objects|
  {
  }

  /** The loop of teardownChannels over the table, in any order. */
  method CloseAll(c: Channels) returns (d: Channels)
    requires forall id :: id in c.table ==> c.table[id] < |c.objects|
    ensures d == TornDown(c)
  {
    hide Half;
    d := c;
    HalfStart(c);
    while d.table != map[]
      invariant d.table.Keys <= c.table.Keys && d.nextLocal == c.nextLocal && |d.objects| == |c.objects|
      invariant forall id :: id in d.table ==> d.table[id] == c.table[id]
      invariant Half(c, d)
      decreases |d.table|
    {
      var id :| id in d.table;
      HalfStep(c, d, id);
      var h := d.table[id];
      assert d.table.Keys == (d.table - {id}).Keys + {id};
      d := d.(objects := d.objects[h := d.objects[h].(closed := true)], table := d.table - {id});
    }
    HalfDone(c, d);
  }

  lemma HalfStart(c: Channels)
    ensures Half(c, c)
  {
  }

  lemma QuotaOf(s: Conn)
    requires Inv(s)
    ensures |s.chans.table| <= s.maxChannels
  {
  }
}
