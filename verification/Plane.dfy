/**
 internal/dataplane/conn.go and forward.go: one SSH connection as a state
 machine. Each section under the connection's mutex is one step; the serve loop
 and one forwarder per channel interleave at those sections. A step of the serve
 loop depends on where the loop is (Pc). Any thread may write a packet, and ask
 for a rekey once the client is authenticated, at any time.
 */
module Plane {
  type u32 = x: nat | x < 0x1_0000_0000

  const MAX_SEQ: nat := 0xFFFF_FFFF
  const INITIAL_RECV: nat := 0x20_0000       // 2 << 20
  const MAX_RECV: nat := 0x8000              // 32 << 10
  const ADJUST_THRESHOLD: nat := 0x10_0000   // 1 << 20

  datatype Option<T> = None | Some(value: T)

  datatype Phase = AwaitInit | AwaitEcdh | AwaitNewKeys | Ready

  /** The key exchange fields of the connection. */
  datatype Kex = Kex(
    phase: Phase, clearIn: bool, clearOut: bool, pendingIn: bool, clientKex: bool,
    strict: bool, initial: bool, sessionID: Option<seq<nat>>, authed: bool)

  /** A frame sealed under key epoch `epoch` with sequence number `seqNo`; ok if the transport took it. */
  datatype Sealed = Sealed(epoch: nat, seqNo: nat, ok: bool)

  /** The sending direction: epoch counts the installed output codecs. */
  datatype Sender = Sender(epoch: nat, outSeq: nat, log: seq<Sealed>)

  /**
   A channel and its forwarder. The last fields are the channel's history: the
   window it was opened with, the window adjustments, the bytes debited, the
   bytes received and the credit granted to the peer; and the bytes read from
   the backend, those not yet sent, the chunk being written, the chunks sent,
   and whether a write failed, which ends the forwarder.
   */
  datatype Channel = Channel(
    localID: u32, remoteID: u32, window: u32, maxPkt: u32, recvWindow: nat, consumed: nat, closed: bool,
    openWindow: nat, adjusted: nat, debited: nat, received: nat, granted: nat,
    input: seq<nat>, rest: seq<nat>, writing: nat, chunks: seq<seq<nat>>, failed: bool)

  /** All channels ever opened, by order of opening, and the table of the open ones by local id. */
  datatype Channels = Channels(objects: seq<Channel>, table: map<u32, nat>, nextLocal: u32)

  /** Where the serve loop is between its locked sections. */
  datatype Pc =
    | Idle
    | KexInitSeen(phase: Phase, offersStrict: bool)
    | EcdhChecked
    | EcdhHashed
    | Dialing(sender: u32, window: u32, maxPkt: u32)
    | Delivering(h: nat, id: u32, size: nat)
    | Stopped

  datatype Conn = Conn(kex: Kex, out: Sender, inSeq: nat, chans: Channels, pc: Pc, maxChannels: nat)

  function Start(maxChannels: nat): (s: Conn)
  {
    Conn(Kex(AwaitInit, true, true, false, false, false, true, None, false),
         Sender(0, 0, []), 0, Channels([], map[], 0), Idle, maxChannels)
  }

  datatype Step =
    | Receive
    | LookKexInit(offersStrict: bool)
    | ApplyKexInit
    | LookEcdh
    | HashEcdh(hash: seq<nat>)
    | SwitchEcdh
    | TakeNewKeys
    | Authenticate
    | LookOpen(sender: u32, window: u32, maxPkt: u32)
    | InsertOpen
    | TakeData(id: u32, size: nat)
    | DeliverData(ok: bool)
    | AdjustWindow(id: u32, add: u32)
    | CloseChannel(id: u32)
    | Stop
    | Write(ok: bool)
    | StartRekey
    | BackendRead(h: nat, data: seq<nat>)
    | Debit(h: nat)
    | SendChunk(h: nat, ok: bool)

  /** When a step can be taken. */
  predicate Enabled(s: Conn, e: Step)
  {
    match e
    case Receive => s.pc.Idle? && s.inSeq <= MAX_SEQ
    case LookKexInit(_) => s.pc.Idle?
    case ApplyKexInit => s.pc.KexInitSeen?
    case LookEcdh => s.pc.Idle?
    case HashEcdh(hash) => s.pc.EcdhChecked? && |hash| == 32
    case SwitchEcdh => s.pc.EcdhHashed?
    case TakeNewKeys => s.pc.Idle?
    case Authenticate => s.pc.Idle? && !s.kex.clearIn
    case LookOpen(_, _, _) => s.pc.Idle? && !s.kex.clearIn
    case InsertOpen => s.pc.Dialing?
    case TakeData(_, _) => s.pc.Idle? && !s.kex.clearIn
    case DeliverData(_) => s.pc.Delivering?
    case AdjustWindow(_, _) => s.pc.Idle? && !s.kex.clearIn
    case CloseChannel(_) => true
    case Stop => true
    case Write(_) => true
    case StartRekey => s.kex.authed
    case BackendRead(h, data) =>
      && h < |s.chans.objects| && 0 < |data| <= 0x4000
      && var ch := s.chans.objects[h];
         !ch.failed && ch.rest == [] && ch.writing == 0
    case Debit(h) =>
      && h < |s.chans.objects| && s.kex.phase.Ready?
      && var ch := s.chans.objects[h];
         !ch.failed && !ch.closed && ch.window > 0 && ch.rest != [] && ch.writing == 0
    case SendChunk(h, _) => h < |s.chans.objects| && !s.chans.objects[h].failed && s.chans.objects[h].writing > 0
  }

  //////////////////////////////////////////////////////////////////////////////
  // Key exchange
  //////////////////////////////////////////////////////////////////////////////

  /** handleKexInit, second section: it acts on the phase read in the first. */
  function KexInitApplied(s: Conn): (r: Conn)
    requires s.pc.KexInitSeen?
  {
    match s.pc.phase
    case Ready => s.(kex := s.kex.(clientKex := true, phase := AwaitEcdh), pc := Idle)
    case AwaitInit =>
      s.(kex := s.kex.(clientKex := true, phase := AwaitEcdh,
                       strict := s.kex.strict || (s.kex.initial && s.pc.offersStrict)), pc := Idle)
    case _ => s.(pc := Stopped)
  }

  function EcdhLooked(s: Conn): (r: Conn)
  {
    if !s.kex.phase.AwaitEcdh? || !s.kex.clientKex then s.(pc := Stopped) else s.(pc := EcdhChecked)
  }

  function SessionSet(s: Conn, hash: seq<nat>): (r: Conn)
  {
    s.(kex := s.kex.(sessionID := if s.kex.sessionID.None? then Some(hash) else s.kex.sessionID), pc := EcdhHashed)
  }

  /** handleKEX, last section: the new output codec and the pending input codec. */
  function Switched(s: Conn): (r: Conn)
  {
    s.(kex := s.kex.(pendingIn := true, clearOut := false, phase := AwaitNewKeys),
       out := s.out.(epoch := s.out.epoch + 1, outSeq := if s.kex.strict then 0 else s.out.outSeq),
       pc := Idle)
  }

  function NewKeysTaken(s: Conn): (r: Conn)
  {
    if !s.kex.phase.AwaitNewKeys? || !s.kex.pendingIn then s.(pc := Stopped)
    else
      s.(kex := s.kex.(pendingIn := false, clearIn := false, initial := false, phase := Ready),
         inSeq := if s.kex.strict then 0 else s.inSeq)
  }

  function RekeyStarted(s: Conn): (r: Conn)
  {
    if !s.kex.phase.Ready? then s else s.(kex := s.kex.(clientKex := false, phase := AwaitInit))
  }

  /** write: outSeq advances only when the transport took the packet. */
  function SenderWrote(out: Sender, clearOut: bool, ok: bool): (r: Sender)
  {
    if out.outSeq > MAX_SEQ then out
    else
      out.(log := if clearOut then out.log else out.log + [Sealed(out.epoch, out.outSeq, ok)],
           outSeq := if ok then out.outSeq + 1 else out.outSeq)
  }

  function Written(s: Conn, ok: bool): (r: Conn)
  {
    s.(out := SenderWrote(s.out, s.kex.clearOut, ok))
  }

  //////////////////////////////////////////////////////////////////////////////
  // Channels
  //////////////////////////////////////////////////////////////////////////////

  function OpenLooked(s: Conn, sender: u32, window: u32, maxPkt: u32): (r: Conn)
  {
    if !s.kex.authed then s.(pc := Stopped)
    else if maxPkt == 0 || |s.chans.table| >= s.maxChannels then s
    else s.(pc := Dialing(sender, window, maxPkt))
  }

  function NewChannel(id: u32, sender: u32, window: u32, maxPkt: u32): (ch: Channel)
  {
    Channel(id, sender, window, maxPkt, INITIAL_RECV, 0, false, window, 0, 0, 0, INITIAL_RECV, [], [], 0, [], false)
  }

  function Inserted(s: Conn): (r: Conn)
    requires s.pc.Dialing?
  {
    if |s.chans.table| >= s.maxChannels then s.(pc := Idle)
    else
      var c := s.chans;
      var ch := NewChannel(c.nextLocal, s.pc.sender, s.pc.window, s.pc.maxPkt);
      s.(chans := Channels(c.objects + [ch], c.table[c.nextLocal := |c.objects|], (c.nextLocal + 1) % 0x1_0000_0000),
         pc := Idle)
  }

  /** Channel h becomes ch. */
  function Put(c: Channels, h: nat, ch: Channel): (r: Channels)
    requires h < |c.objects|
  {
    c.(objects := c.objects[h := ch])
  }

  function Took(ch: Channel, size: nat): (r: Channel)
    requires size <= ch.recvWindow
  {
    ch.(recvWindow := ch.recvWindow - size, received := ch.received + size)
  }

  /** handleChannelData, first section: the size against the packet limit and the window. */
  function DataTaken(s: Conn, id: u32, size: nat): (r: Conn)
  {
    if id !in s.chans.table || s.chans.table[id] >= |s.chans.objects| then s
    else
      var h := s.chans.table[id];
      var ch := s.chans.objects[h];
      if size > MAX_RECV || size > ch.recvWindow then s.(pc := Stopped)
      else s.(chans := Put(s.chans, h, Took(ch, size)), pc := Delivering(h, id, size))
  }

  /** The consumed bytes are credited to the peer once they reach the threshold. */
  function Credited(ch: Channel, size: nat): (r: Channel)
  {
    var total := ch.consumed + size;
    if total < ADJUST_THRESHOLD then ch.(consumed := total)
    else ch.(consumed := 0, recvWindow := ch.recvWindow + total, granted := ch.granted + total)
  }

  /** handleChannelData after the backend write: the credit, or the close of the channel. */
  function Delivered(s: Conn, ok: bool): (r: Conn)
    requires s.pc.Delivering?
  {
    var h := s.pc.h;
    if h >= |s.chans.objects| then s.(pc := Idle)
    else if ok then s.(chans := Put(s.chans, h, Credited(s.chans.objects[h], s.pc.size)), pc := Idle)
    else if s.chans.objects[h].closed then s.(pc := Idle)
    else s.(chans := Closed(s.chans, s.pc.id), pc := Idle)
  }

  function Widened(ch: Channel, add: u32): (r: Channel)
    requires ch.window + add <= 0xFFFF_FFFF
  {
    ch.(window := ch.window + add, adjusted := ch.adjusted + add)
  }

  /** handleWindowAdjust. */
  function Adjusted(s: Conn, id: u32, add: u32): (r: Conn)
  {
    if id !in s.chans.table || s.chans.table[id] >= |s.chans.objects| then s
    else
      var h := s.chans.table[id];
      var ch := s.chans.objects[h];
      if add > 0xFFFF_FFFF - ch.window then s.(pc := Stopped)
      else s.(chans := Put(s.chans, h, Widened(ch, add)))
  }

  /** closeChannel. */
  function Closed(c: Channels, id: u32): (r: Channels)
  {
    if id !in c.table || c.table[id] >= |c.objects| then c
    else c.(objects := c.objects[c.table[id] := c.objects[c.table[id]].(closed := true)], table := c.table - {id})
  }

  /** teardownChannels: every channel of the table. */
  function TornDown(c: Channels): (r: Channels)
    ensures |r.objects| == |c.objects| && r.nextLocal == c.nextLocal && r.table == map[]
    ensures forall h :: 0 <= h < |c.objects| ==>
              r.objects[h] == c.objects[h] || r.objects[h] == c.objects[h].(closed := true)
  {
    Channels(seq(|c.objects|, h requires 0 <= h < |c.objects| =>
               if h in c.table.Values then c.objects[h].(closed := true) else c.objects[h]),
             map[], c.nextLocal)
  }

  /** forwardBackend: bytes read from the backend. */
  function Fed(ch: Channel, data: seq<nat>): (r: Channel)
  {
    ch.(input := ch.input + data, rest := data)
  }

  function Min(a: nat, b: nat): (m: nat)
  {
    if a > b then b else a
  }

  /** sendChannelData: the chunk, cut to the packet size and to the window. */
  function Chunked(ch: Channel): (r: Channel)
  {
    var chunk := Min(Min(|ch.rest|, ch.maxPkt), ch.window);
    ch.(window := ch.window - chunk, debited := ch.debited + chunk, writing := chunk)
  }

  /** The chunk after its write. */
  function Sent(ch: Channel): (r: Channel)
    requires ch.writing <= |ch.rest|
  {
    ch.(chunks := ch.chunks + [ch.rest[..ch.writing]], rest := ch.rest[ch.writing..], writing := 0)
  }

  /** The write of the chunk; on failure the forwarder closes the channel in a later section. */
  function ChunkSent(s: Conn, h: nat, ok: bool): (r: Conn)
    requires h < |s.chans.objects|
  {
    var ch := s.chans.objects[h];
    var failed := !ok || s.out.outSeq > MAX_SEQ || ch.writing > |ch.rest|;
    Written(s, ok).(chans := Put(s.chans, h, if failed then ch.(failed := true) else Sent(ch)))
  }

  function Next(s: Conn, e: Step): (r: Conn)
    requires Enabled(s, e)
  {
    match e
    case Receive => s.(inSeq := s.inSeq + 1)
    case LookKexInit(strict) => s.(pc := KexInitSeen(s.kex.phase, strict))
    case ApplyKexInit => KexInitApplied(s)
    case LookEcdh => EcdhLooked(s)
    case HashEcdh(hash) => SessionSet(s, hash)
    case SwitchEcdh => Switched(s)
    case TakeNewKeys => NewKeysTaken(s)
    case Authenticate => s.(kex := s.kex.(authed := true))
    case LookOpen(sender, window, maxPkt) => OpenLooked(s, sender, window, maxPkt)
    case InsertOpen => Inserted(s)
    case TakeData(id, size) => DataTaken(s, id, size)
    case DeliverData(ok) => Delivered(s, ok)
    case AdjustWindow(id, add) => Adjusted(s, id, add)
    case CloseChannel(id) => s.(chans := Closed(s.chans, id))
    case Stop => s.(chans := TornDown(s.chans), pc := Stopped)
    case Write(ok) => Written(s, ok)
    case StartRekey => RekeyStarted(s)
    case BackendRead(h, data) => s.(chans := Put(s.chans, h, Fed(s.chans.objects[h], data)))
    case Debit(h) => s.(chans := Put(s.chans, h, Chunked(s.chans.objects[h])))
    case SendChunk(h, ok) => ChunkSent(s, h, ok)
  }

  //////////////////////////////////////////////////////////////////////////////
  // Runs
  //////////////////////////////////////////////////////////////////////////////

  predicate ValidRun(s: Conn, run: seq<Step>)
    decreases run
  {
    run == [] || (Enabled(s, run[0]) && ValidRun(Next(s, run[0]), run[1..]))
  }

  function After(s: Conn, run: seq<Step>): (r: Conn)
    requires ValidRun(s, run)
    decreases run
  {
    if run == [] then s else After(Next(s, run[0]), run[1..])
  }
}
