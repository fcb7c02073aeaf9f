/**
 internal/dataplane/packet.go and writePacket of listen.go: binary packets of
 section 6 of RFC 4253, in the clear and under the ChaCha20-Poly1305 codec. The
 cipher streams and the tag are arbitrary functions of the sequence number.
 */
module Framing {
  import opened Bytes

  const MAX_PACKET: nat := 0x4_0000   // 256 << 10

  /** One direction: the key streams by sequence number and position, and the bytes of the tag. */
  datatype Direction = Direction(
    lengthStream: (nat, nat) -> byte, payloadStream: (nat, nat) -> byte, tagByte: (nat, seq<byte>, nat) -> byte)

  //////////////////////////////////////////////////////////////////////////////
  // Exclusive or
  //////////////////////////////////////////////////////////////////////////////

  function Xor(a: nat, b: nat): (r: nat)
  {
    if a == 0 then b
    else if b == 0 then a
    else (if a % 2 == b % 2 then 0 else 1) + 2 * Xor(a / 2, b / 2)
  }

  lemma {:induction false} XorParts(a: nat, b: nat)
    ensures Xor(a, b) % 2 == (if a % 2 == b % 2 then 0 else 1)
    ensures Xor(a, b) / 2 == Xor(a / 2, b / 2)
  {
    if a == 0 || b == 0 {
      assert Xor(a / 2, b / 2) == if a / 2 == 0 then b / 2 else a / 2;
    }
  }

  /** Adding the same stream again gives the plain value back. */
  lemma {:induction false} XorTwice(a: nat, b: nat)
    ensures Xor(Xor(a, b), b) == a
    decreases a + b
  {
    if a == 0 && b == 0 {
    } else {
      XorTwice(a / 2, b / 2);
      XorParts(a, b);
      XorParts(Xor(a, b), b);
      var r := Xor(Xor(a, b), b);
      assert r == r % 2 + 2 * (r / 2);
    }
  }

  lemma {:induction false} XorBelow(a: nat, b: nat, n: nat)
    requires a < n && b < n && Doubling(n)
    ensures Xor(a, b) < n
    decreases n
  {
    if a != 0 && b != 0 {
      XorBelow(a / 2, b / 2, n / 2);
    }
  }

  /** Powers of two. */
  predicate Doubling(n: nat)
  {
    n == 1 || (n > 1 && n % 2 == 0 && Doubling(n / 2))
  }

  function XorByte(a: byte, b: byte): (r: byte)
  {
    assert Doubling(16);
    assert Doubling(256);
    XorBelow(a, b, 256);
    Xor(a, b)
  }

  function XorStream(data: seq<byte>, stream: nat -> byte): (r: seq<byte>)
    ensures |r| == |data| && forall i :: 0 <= i < |data| ==> r[i] == XorByte(data[i], stream(i))
  {
    seq<byte>(|data|, i requires 0 <= i < |data| => XorByte(data[i], stream(i)))
  }

  lemma XorStreamTwice(data: seq<byte>, stream: nat -> byte)
    ensures XorStream(XorStream(data, stream), stream) == data
  {
    hide Xor;
    var enc := XorStream(data, stream);
    forall i | 0 <= i < |data|
      ensures XorByte(enc[i], stream(i)) == data[i]
    {
      XorTwice(data[i], stream(i));
    }
  }

  //////////////////////////////////////////////////////////////////////////////
  // Lengths and padding
  //////////////////////////////////////////////////////////////////////////////

  /** binary.BigEndian.PutUint32 of uint32(n). */
  function U32Bytes(n: nat): (v: seq<byte>)
    ensures |v| == 4
  {
    [(n / 0x100_0000) % 0x100, (n / 0x1_0000) % 0x100, (n / 0x100) % 0x100, n % 0x100]
  }

  function U32Of(v: seq<byte>): (n: nat)
    requires |v| == 4
  {
    var b0: nat, b1: nat, b2: nat, b3: nat := v[0], v[1], v[2], v[3];
    ((b0 * 0x100 + b1) * 0x100 + b2) * 0x100 + b3
  }

  /** The length is read back modulo 2^32. */
  lemma U32RoundTrip(n: nat)
    ensures U32Of(U32Bytes(n)) == n % 0x1_0000_0000
  {
    var q1 := n / 0x100;
    var q2 := q1 / 0x100;
    var q3 := q2 / 0x100;
    ByteShift(n, 0x100);
    ByteShift(n, 0x1_0000);
    UniqueQuotient(n, q3 / 0x100, U32Of(U32Bytes(n)), 0x1_0000_0000);
  }

  lemma ByteShift(n: nat, m: nat)
    requires m == 0x100 || m == 0x1_0000
    ensures n / (m * 0x100) == n / m / 0x100
  {
    UniqueQuotient(n, n / m / 0x100, n % m + (n / m % 0x100) * m, m * 0x100);
  }

  /** The padding of a body whose unpadded part has n bytes: 4 to 11 bytes up to a multiple of 8. */
  function Padding(n: nat): (p: byte)
    ensures 4 <= p <= 11 && (n + p) % 8 == 0
  {
    var p := 8 - n % 8;
    if p < 4 then p + 8 else p
  }

  function Noise(random: nat -> byte, n: nat): (v: seq<byte>)
    ensures |v| == n
  {
    seq(n, i requires 0 <= i < n => random(i))
  }

  /** padPayload: the padding length, the payload and random padding. */
  function PadPayload(payload: seq<byte>, random: nat -> byte): (body: seq<byte>)
    ensures |body| == 1 + |payload| + Padding(1 + |payload|)
  {
    var p := Padding(1 + |payload|);
    [p] + payload + Noise(random, p)
  }

  datatype Unpadded = Payload(payload: seq<byte>) | BadPadding

  function UnpadPayload(body: seq<byte>): (r: Unpadded)
    ensures r.Payload? ==> |r.payload| < |body|
  {
    if |body| < 5 then BadPadding
    else
      var pad: int := body[0];
      if pad < 4 || 1 + pad >= |body| then BadPadding
      else Payload(body[1..|body| - pad])
  }

  lemma PadRoundTrip(payload: seq<byte>, random: nat -> byte)
    requires payload != []
    ensures UnpadPayload(PadPayload(payload, random)) == Payload(payload)
  {
    var body := PadPayload(payload, random);
    var p := Padding(1 + |payload|);
    assert body[1..|body| - p] == payload;
  }

  //////////////////////////////////////////////////////////////////////////////
  // Sealed frames
  //////////////////////////////////////////////////////////////////////////////

  function Tag(d: Direction, seqNo: nat, msg: seq<byte>): (tag: seq<byte>)
    ensures |tag| == 16
  {
    seq<byte>(16, i requires 0 <= i < 16 => d.tagByte(seqNo, msg, i))
  }

  function LengthStream(d: Direction, seqNo: nat): (s: nat -> byte)
  {
    (i: nat) => d.lengthStream(seqNo, i)
  }

  function PayloadStream(d: Direction, seqNo: nat): (s: nat -> byte)
  {
    (i: nat) => d.payloadStream(seqNo, i)
  }

  datatype SealResult = Frame(frame: seq<byte>) | EmptyPayload

  /** The frame of a padded body. */
  function FrameOf(d: Direction, seqNo: nat, body: seq<byte>): (frame: seq<byte>)
    ensures |frame| == 4 + |body| + 16
  {
    var encLen := XorStream(U32Bytes(|body|), LengthStream(d, seqNo));
    var encBody := XorStream(body, PayloadStream(d, seqNo));
    encLen + encBody + Tag(d, seqNo, encLen + encBody)
  }

  /** seal. */
  function Seal(d: Direction, seqNo: nat, payload: seq<byte>, random: nat -> byte): (r: SealResult)
  {
    if payload == [] then EmptyPayload else Frame(FrameOf(d, seqNo, PadPayload(payload, random)))
  }

  datatype OpenError = ShortRead | BadLength | BadTag | BadPad

  datatype OpenResult = Opened(payload: seq<byte>, rest: seq<byte>) | OpenErr(error: OpenError)

  /** open: consumes one frame from the reader. */
  function Open(d: Direction, seqNo: nat, input: seq<byte>): (r: OpenResult)
  {
    if |input| < 4 then OpenErr(ShortRead)
    else
      var encLen := input[..4];
      var n := U32Of(XorStream(encLen, LengthStream(d, seqNo)));
      if n < 5 || n > MAX_PACKET then OpenErr(BadLength)
      else if |input| < 4 + n + 16 then OpenErr(ShortRead)
      else
        var encBody, got := input[4..4 + n], input[4 + n..4 + n + 16];
        if got != Tag(d, seqNo, encLen + encBody) then OpenErr(BadTag)
        else
          var body := UnpadPayload(XorStream(encBody, PayloadStream(d, seqNo)));
          if body.BadPadding? then OpenErr(BadPad) else Opened(body.payload, input[4 + n + 16..])
  }

  /** The largest payload whose padded body passes the reader's limit. */
  predicate Fitting(payload: seq<byte>)
  {
    1 + |payload| + Padding(1 + |payload|) <= MAX_PACKET
  }

  /**
   A frame is opened to its payload exactly when its padded body is at most 256 KiB,
   for payloads of any length; the length error is certain below the 2^32 bytes at
   which the length field wraps around.
   */
  lemma OpenSealed(d: Direction, seqNo: nat, payload: seq<byte>, random: nat -> byte, rest: seq<byte>)
    requires payload != []
    ensures var r := Open(d, seqNo, Seal(d, seqNo, payload, random).frame + rest);
            && (r == Opened(payload, rest) <==> Fitting(payload))
            && (!Fitting(payload) && 1 + |payload| + Padding(1 + |payload|) < 0x1_0000_0000 ==> r == OpenErr(BadLength))
  {
    hide XorStream, U32Bytes, U32Of, Tag, PadPayload, UnpadPayload;
    var body := PadPayload(payload, random);
    var frame := FrameOf(d, seqNo, body);
    var encLen := XorStream(U32Bytes(|body|), LengthStream(d, seqNo));
    var encBody := XorStream(body, PayloadStream(d, seqNo));
    var input := frame + rest;
    var n := |body|;
    assert input[..4] == encLen;
    XorStreamTwice(U32Bytes(n), LengthStream(d, seqNo));
    U32RoundTrip(n);
    if n <= MAX_PACKET {
      assert input[4..4 + n] == encBody;
      assert input[4 + n..4 + n + 16] == Tag(d, seqNo, encLen + encBody);
      assert input[4 + n + 16..] == rest;
      XorStreamTwice(body, PayloadStream(d, seqNo));
      PadRoundTrip(payload, random);
    }
  }

  /** A body is unpadded to p exactly when it is a length, p and that many bytes of padding, at least four. */
  lemma UnpadIff(body: seq<byte>, p: seq<byte>)
    ensures UnpadPayload(body) == Payload(p) <==>
              p != [] && exists pad: seq<byte> :: 4 <= |pad| < 256 && body == [|pad|] + p + pad
  {
    if UnpadPayload(body) == Payload(p) {
      var n: nat := body[0];
      var pad := body[|body| - n..];
      assert 4 <= |pad| < 256 && body == [|pad|] + p + pad;
    }
    if p != [] && exists pad: seq<byte> :: 4 <= |pad| < 256 && body == [|pad|] + p + pad {
      var pad: seq<byte> :| 4 <= |pad| < 256 && body == [|pad|] + p + pad;
      assert body[1..|body| - |pad|] == p;
    }
  }

  /** The bytes of a length are the only ones that read as it. */
  lemma {:induction false} U32Unique(v: seq<byte>)
    requires |v| == 4
    ensures U32Of(v) < 0x1_0000_0000 && U32Bytes(U32Of(v)) == v
  {
    var b0: nat, b1: nat, b2: nat, b3: nat := v[0], v[1], v[2], v[3];
    var q3 := b0 * 0x100 + b1;
    var q2 := q3 * 0x100 + b2;
    var n := q2 * 0x100 + b3;
    UniqueQuotient(n, q2, b3, 0x100);
    UniqueQuotient(q2, q3, b2, 0x100);
    UniqueQuotient(q3, b0, b1, 0x100);
    ByteShift(n, 0x100);
    ByteShift(n, 0x1_0000);
  }

  /** The four bytes of a length, most significant first. */
  lemma LengthBytes(n: nat)
    requires n < 0x1_0000_0000
    ensures var b0: int, b1: int, b2: int, b3: int := U32Bytes(n)[0], U32Bytes(n)[1], U32Bytes(n)[2], U32Bytes(n)[3];
            n == b0 * 0x100_0000 + b1 * 0x1_0000 + b2 * 0x100 + b3
  {
    hide U32Bytes;
    U32RoundTrip(n);
  }

  /** Byte i of a frame: the length and the body under their key streams, then the tag of everything before it. */
  lemma FrameLayout(d: Direction, seqNo: nat, body: seq<byte>, i: nat)
    requires i < 4 + |body| + 16
    ensures var frame := FrameOf(d, seqNo, body);
            var n := |body|;
            frame[i] == if i < 4 then XorByte(U32Bytes(n)[i], d.lengthStream(seqNo, i))
                        else if i < 4 + n then XorByte(body[i - 4], d.payloadStream(seqNo, i - 4))
                        else d.tagByte(seqNo, frame[..4 + n], i - 4 - n)
  {
    hide U32Bytes, XorByte;
    var encLen := XorStream(U32Bytes(|body|), LengthStream(d, seqNo));
    var encBody := XorStream(body, PayloadStream(d, seqNo));
    assert FrameOf(d, seqNo, body)[..4 + |body|] == encLen + encBody;
  }

  /** The parts of an input that starts with a frame. */
  lemma FrameParts(d: Direction, seqNo: nat, body: seq<byte>, rest: seq<byte>)
    requires |body| < 0x1_0000_0000
    ensures var input := FrameOf(d, seqNo, body) + rest;
            var n := |body|;
            && |input| == 4 + n + 16 + |rest|
            && U32Of(XorStream(input[..4], LengthStream(d, seqNo))) == n
            && XorStream(input[4..4 + n], PayloadStream(d, seqNo)) == body
            && input[4 + n..4 + n + 16] == Tag(d, seqNo, input[..4] + input[4..4 + n]) && input[4 + n + 16..] == rest
  {
    hide XorStream, U32Bytes, U32Of, Tag;
    var encLen := XorStream(U32Bytes(|body|), LengthStream(d, seqNo));
    var encBody := XorStream(body, PayloadStream(d, seqNo));
    var input := FrameOf(d, seqNo, body) + rest;
    var n := |body|;
    assert input[..4] == encLen && input[4..4 + n] == encBody;
    XorStreamTwice(U32Bytes(n), LengthStream(d, seqNo));
    XorStreamTwice(body, PayloadStream(d, seqNo));
    U32RoundTrip(n);
  }

  /** An input that Open accepts starts with the frame of its body. */
  lemma OpenedIsFrame(d: Direction, seqNo: nat, input: seq<byte>) returns (body: seq<byte>)
    requires Open(d, seqNo, input).Opened?
    ensures 5 <= |body| <= MAX_PACKET && UnpadPayload(body) == Payload(Open(d, seqNo, input).payload)
    ensures input == FrameOf(d, seqNo, body) + Open(d, seqNo, input).rest
  {
    hide XorStream, U32Bytes, U32Of, Tag, UnpadPayload;
    var encLen := input[..4];
    var plain := XorStream(encLen, LengthStream(d, seqNo));
    var n := U32Of(plain);
    var encBody := input[4..4 + n];
    body := XorStream(encBody, PayloadStream(d, seqNo));
    U32Unique(plain);
    XorStreamTwice(encLen, LengthStream(d, seqNo));
    XorStreamTwice(encBody, PayloadStream(d, seqNo));
    assert input == encLen + encBody + input[4 + n..4 + n + 16] + input[4 + n + 16..];
  }

  /** Open accepts exactly the frames of well padded bodies of at most 256 KiB, and what follows is the rest. */
  lemma OpenIff(d: Direction, seqNo: nat, input: seq<byte>, p: seq<byte>, rest: seq<byte>)
    ensures Open(d, seqNo, input) == Opened(p, rest) <==>
              exists body: seq<byte> ::
                5 <= |body| <= MAX_PACKET && UnpadPayload(body) == Payload(p) && input == FrameOf(d, seqNo, body) + rest
  {
    hide FrameOf, UnpadPayload;
    if Open(d, seqNo, input) == Opened(p, rest) {
      var body := OpenedIsFrame(d, seqNo, input);
    }
    if exists body: seq<byte> ::
         5 <= |body| <= MAX_PACKET && UnpadPayload(body) == Payload(p) && input == FrameOf(d, seqNo, body) + rest {
      var body: seq<byte> :|
        5 <= |body| <= MAX_PACKET && UnpadPayload(body) == Payload(p) && input == FrameOf(d, seqNo, body) + rest;
      OpenFrame(d, seqNo, body, rest);
    }
  }

  /** What is read from the frame of any body. */
  lemma OpenFrame(d: Direction, seqNo: nat, body: seq<byte>, rest: seq<byte>)
    requires |body| < 0x1_0000_0000
    ensures Open(d, seqNo, FrameOf(d, seqNo, body) + rest)
            == if |body| < 5 || |body| > MAX_PACKET then OpenErr(BadLength)
               else if UnpadPayload(body).BadPadding? then OpenErr(BadPad)
               else Opened(UnpadPayload(body).payload, rest)
  {
    hide XorStream, U32Of, Tag, UnpadPayload, FrameOf;
    FrameParts(d, seqNo, body, rest);
  }

  /** A frame with any other tag is refused as such, whatever its body. */
  lemma OtherTag(d: Direction, seqNo: nat, body: seq<byte>, tag: seq<byte>, rest: seq<byte>)
    requires 5 <= |body| <= MAX_PACKET && |tag| == 16
    ensures var frame := FrameOf(d, seqNo, body);
            tag != frame[4 + |body|..] ==> Open(d, seqNo, frame[..4 + |body|] + tag + rest) == OpenErr(BadTag)
  {
    hide XorStream, U32Of, Tag, UnpadPayload, FrameOf;
    var n := |body|;
    var frame := FrameOf(d, seqNo, body);
    var input := frame[..4 + n] + tag + rest;
    FrameParts(d, seqNo, body, []);
    assert frame + [] == frame;
    assert input[..4] == frame[..4] && input[4..4 + n] == frame[4..4 + n] && input[4 + n..4 + n + 16] == tag;
    assert frame[4 + n..4 + n + 16] == frame[4 + n..];
  }

  /** Every proper prefix of a frame is a short read. */
  lemma PrefixShort(d: Direction, seqNo: nat, body: seq<byte>, k: nat)
    requires 5 <= |body| <= MAX_PACKET && k < |FrameOf(d, seqNo, body)|
    ensures Open(d, seqNo, FrameOf(d, seqNo, body)[..k]) == OpenErr(ShortRead)
  {
    hide XorStream, U32Of, Tag, UnpadPayload, FrameOf;
    var frame := FrameOf(d, seqNo, body);
    FrameParts(d, seqNo, body, []);
    assert frame + [] == frame;
    if k >= 4 {
      assert frame[..k][..4] == frame[..4];
    }
  }

  //////////////////////////////////////////////////////////////////////////////
  // Whole streams
  //////////////////////////////////////////////////////////////////////////////

  predicate Sendable(payloads: seq<seq<byte>>)
  {
    forall i :: 0 <= i < |payloads| ==> payloads[i] != [] && Fitting(payloads[i])
  }

  /** The frames of consecutive writes; random(k, i) is byte i of the k-th padding. */
  function SealAll(d: Direction, seqNo: nat, payloads: seq<seq<byte>>, random: (nat, nat) -> byte): (stream: seq<byte>)
    requires Sendable(payloads)
    decreases |payloads|
  {
    if payloads == [] then []
    else
      Seal(d, seqNo, payloads[0], (i: nat) => random(seqNo, i)).frame
      + SealAll(d, seqNo + 1, payloads[1..], random)
  }

  datatype StreamResult = Stream(payloads: seq<seq<byte>>, rest: seq<byte>) | StreamErr(error: OpenError)

  /** n packets opened one after the other. */
  function OpenAll(d: Direction, seqNo: nat, input: seq<byte>, n: nat): (r: StreamResult)
    decreases n
  {
    if n == 0 then Stream([], input)
    else
      var first := Open(d, seqNo, input);
      if first.OpenErr? then StreamErr(first.error)
      else
        var others := OpenAll(d, seqNo + 1, first.rest, n - 1);
        if others.StreamErr? then others else Stream([first.payload] + others.payloads, others.rest)
  }

  /** Opening the frames in order returns exactly the payloads. */
  lemma {:induction false} StreamRoundTrip(d: Direction, seqNo: nat, payloads: seq<seq<byte>>,
                                           random: (nat, nat) -> byte, rest: seq<byte>)
    requires Sendable(payloads)
    ensures OpenAll(d, seqNo, SealAll(d, seqNo, payloads, random) + rest, |payloads|) == Stream(payloads, rest)
    decreases |payloads|
  {
    hide Open, FrameOf, Fitting;
    if payloads == [] {
      assert [] + rest == rest;
    } else {
      var first := Seal(d, seqNo, payloads[0], (i: nat) => random(seqNo, i)).frame;
      var others := SealAll(d, seqNo + 1, payloads[1..], random);
      OpenSealed(d, seqNo, payloads[0], (i: nat) => random(seqNo, i), others + rest);
      StreamRoundTrip(d, seqNo + 1, payloads[1..], random, rest);
      assert first + others + rest == first + (others + rest);
      assert [payloads[0]] + payloads[1..] == payloads;
    }
  }

  //////////////////////////////////////////////////////////////////////////////
  // Clear packets
  //////////////////////////////////////////////////////////////////////////////

  /** writePacket. */
  function ClearPacket(payload: seq<byte>, random: nat -> byte): (frame: seq<byte>)
  {
    var p := Padding(1 + |payload| + 4);
    U32Bytes(1 + |payload| + p) + [p] + payload + Noise(random, p)
  }

  datatype ClearResult = Clear(payload: seq<byte>, rest: seq<byte>) | ClearShort | ClearLength | ClearPadding

  /** readClearPacket. */
  function ReadClear(input: seq<byte>): (r: ClearResult)
  {
    if |input| < 5 then ClearShort
    else
      var n := U32Of(input[..4]);
      if n < 12 || n > MAX_PACKET then ClearLength
      else if |input| < 4 + n then ClearShort
      else
        var rest := input[5..4 + n];
        var pad: int := input[4];
        if pad < 4 || pad > |rest| then ClearPadding
        else Clear(rest[..|rest| - pad], input[4 + n..])
  }

  lemma ClearParts(payload: seq<byte>, random: nat -> byte, rest: seq<byte>)
    ensures var p := Padding(5 + |payload|);
            var n := 1 + |payload| + p;
            var input := ClearPacket(payload, random) + rest;
            && |input| == 4 + n + |rest| && input[..4] == U32Bytes(n) && input[4] == p
            && input[5..4 + n] == payload + Noise(random, p) && input[4 + n..] == rest
  {
    hide U32Bytes;
  }

  /** readClearPacket inverts writePacket exactly when the packet is at most 256 KiB, for payloads of any length. */
  lemma ReadWritten(payload: seq<byte>, random: nat -> byte, rest: seq<byte>)
    ensures var r := ReadClear(ClearPacket(payload, random) + rest);
            var n := 1 + |payload| + Padding(5 + |payload|);
            && (r == Clear(payload, rest) <==> n <= MAX_PACKET)
            && (MAX_PACKET < n < 0x1_0000_0000 ==> r == ClearLength)
  {
    hide U32Bytes, U32Of, ClearPacket, Noise;
    var p := Padding(5 + |payload|);
    var n := 1 + |payload| + p;
    ClearParts(payload, random, rest);
    U32RoundTrip(n);
    assert n >= 12;
    assert (payload + Noise(random, p))[..|payload|] == payload;
  }

  /** A length of 12 bytes to 256 KiB, a padding length of at least 4, the payload, the padding and the rest. */
  ghost predicate ClearForm(input: seq<byte>, p: seq<byte>, pad: seq<byte>, rest: seq<byte>)
  {
    && 12 <= 1 + |p| + |pad| <= MAX_PACKET && 4 <= |pad| < 256
    && input == U32Bytes(1 + |p| + |pad|) + [|pad|] + p + pad + rest
  }

  lemma ClearBack(input: seq<byte>, p: seq<byte>, pad: seq<byte>, rest: seq<byte>)
    requires ClearForm(input, p, pad, rest)
    ensures ReadClear(input) == Clear(p, rest)
  {
    hide U32Bytes, U32Of;
    var n := 1 + |p| + |pad|;
    assert input[..4] == U32Bytes(n) && input[4] == |pad|;
    U32RoundTrip(n);
    assert input[5..4 + n] == p + pad && (p + pad)[..|p|] == p && input[4 + n..] == rest;
  }

  lemma ClearHasForm(input: seq<byte>) returns (pad: seq<byte>)
    requires ReadClear(input).Clear?
    ensures ClearForm(input, ReadClear(input).payload, pad, ReadClear(input).rest)
  {
    hide U32Bytes, U32Of;
    var n := U32Of(input[..4]);
    U32Unique(input[..4]);
    var body := input[5..4 + n];
    var k: nat := input[4];
    pad := body[|body| - k..];
    var p := ReadClear(input).payload;
    assert body == p + pad;
    assert input == input[..4] + [input[4]] + body + input[4 + n..];
  }

  /** readClearPacket accepts exactly the packets of that form. */
  lemma ReadClearIff(input: seq<byte>, p: seq<byte>, rest: seq<byte>)
    ensures ReadClear(input) == Clear(p, rest) <==> exists pad :: ClearForm(input, p, pad, rest)
  {
    hide ReadClear, ClearForm;
    if ReadClear(input) == Clear(p, rest) {
      var pad := ClearHasForm(input);
    }
    if exists pad :: ClearForm(input, p, pad, rest) {
      var pad :| ClearForm(input, p, pad, rest);
      ClearBack(input, p, pad, rest);
    }
  }
}
