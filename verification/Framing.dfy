/** Packet framing: a four-byte header {u16 size, u16 id}, little-endian, in front of the serialized message,
    and the extraction of packets from whatever bytes have arrived. */
module Framing {
  import opened Basics
  import opened Wire
  import opened Message
  import opened MessageLaws
  import opened Protocol
  import LoginResult

  type Word16 = w: int | 0 <= w < 0x1_0000

  const HEADER_SIZE := 4

  function Fixed16(w: Word16): (bs: seq<Byte>)
    ensures |bs| == 2
  {
    [w % 0x100, w / 0x100]
  }

  /** `header.size` of the packet at the front of `bs`. */
  function HeaderSize(bs: seq<Byte>): (w: Word16)
    requires |bs| >= HEADER_SIZE
  {
    var low: int, high: int := bs[0], bs[1];
    low + high * 0x100
  }

  function HeaderId(bs: seq<Byte>): (w: Word16)
    requires |bs| >= HEADER_SIZE
  {
    var low: int, high: int := bs[2], bs[3];
    low + high * 0x100
  }

  /** The packet of a message body; the assignment to the 16-bit size field truncates. */
  function Frame(id: Word16, body: seq<Byte>): (packet: seq<Byte>)
    ensures |packet| == HEADER_SIZE + |body|
  {
    Fixed16((HEADER_SIZE + |body|) % 0x1_0000) + Fixed16(id) + body
  }

  /** The header says how long the packet is exactly when that length fits its 16 bits. */
  lemma HeaderIsExact(id: Word16, body: seq<Byte>)
    ensures HeaderSize(Frame(id, body)) == |Frame(id, body)| <==> HEADER_SIZE + |body| <= 0xFFFF
    ensures HeaderId(Frame(id, body)) == id && Frame(id, body)[HEADER_SIZE..] == body
  {
    assert HeaderSize(Frame(id, body)) == (HEADER_SIZE + |body|) % 0x1_0000;
  }

  // ---- Extraction ----------------------------------------------------------------------------

  /** What the extraction loop does with the bytes in the buffer: the packets it hands out and the bytes they
      take, or, at a header of size 0, the packets before it hands out the same empty packet forever. */
  datatype Extraction = Done(packets: seq<seq<Byte>>, used: nat) | Stuck(packets: seq<seq<Byte>>)

  /** Bytes the extraction leaves in the buffer until more arrive. */
  predicate Waiting(bs: seq<Byte>) {
    |bs| < HEADER_SIZE || |bs| < HeaderSize(bs)
  }

  function Extract(bs: seq<Byte>): (e: Extraction)
    ensures e.Done? ==> e.used <= |bs|
  {
    if Waiting(bs) then Done([], 0)
    else if HeaderSize(bs) == 0 then Stuck([])
    else Before([bs[..HeaderSize(bs)]], HeaderSize(bs), Extract(bs[HeaderSize(bs)..]))
  }

  function Before(packets: seq<seq<Byte>>, used: nat, e: Extraction): Extraction {
    match e
    case Done(more, n) => Done(packets + more, used + n)
    case Stuck(more) => Stuck(packets + more)
  }

  lemma BeforeTwice(a: seq<seq<Byte>>, m: nat, b: seq<seq<Byte>>, n: nat, e: Extraction)
    ensures Before(a, m, Before(b, n, e)) == Before(a + b, m + n, e)
  {
    assert a + (b + e.packets) == a + b + e.packets;
  }

  lemma ExtractOne(bs: seq<Byte>, n: nat)
    requires !Waiting(bs) && HeaderSize(bs) == n > 0
    ensures Extract(bs) == Before([bs[..n]], n, Extract(bs[n..]))
  {
  }

  /** A packet whose header is right. */
  predicate WellFramed(packet: seq<Byte>) {
    |packet| >= HEADER_SIZE && HeaderSize(packet) == |packet|
  }

  function Concat(packets: seq<seq<Byte>>): seq<Byte> {
    if packets == [] then [] else packets[0] + Concat(packets[1..])
  }

  lemma {:induction false} ConcatAppend(a: seq<seq<Byte>>, b: seq<seq<Byte>>)
    ensures Concat(a + b) == Concat(a) + Concat(b)
  {
    if a == [] {
      assert a + b == b;
    } else {
      assert (a + b)[1..] == a[1..] + b;
      ConcatAppend(a[1..], b);
      assert a[0] + (Concat(a[1..]) + Concat(b)) == a[0] + Concat(a[1..]) + Concat(b);
    }
  }

  lemma ConcatCons(p: seq<Byte>, rest: seq<seq<Byte>>)
    ensures Concat([p] + rest) == p + Concat(rest)
  {
    assert ([p] + rest)[1..] == rest;
  }

  /** The loop hands out the bytes in order; it stops in front of an incomplete packet, and gets stuck in front
      of an empty one. */
  lemma {:induction false} ExtractSplits(bs: seq<Byte>)
    ensures var e := Extract(bs);
            var taken := Concat(e.packets);
            && taken <= bs
            && (e.Done? <==> Waiting(bs[|taken|..]))
            && (e.Done? ==> e.used == |taken|)
            && (e.Stuck? ==> HeaderSize(bs[|taken|..]) == 0)
  {
    if Waiting(bs) || HeaderSize(bs) == 0 {
      assert bs[0..] == bs;
    } else {
      var n := HeaderSize(bs);
      var rest := Extract(bs[n..]);
      ExtractOne(bs, n);
      ExtractSplits(bs[n..]);
      ConcatCons(bs[..n], rest.packets);
      assert bs == bs[..n] + bs[n..];
      assert bs[n..][|Concat(rest.packets)|..] == bs[n + |Concat(rest.packets)|..];
    }
  }

  predicate Continues(a: seq<Byte>, b: seq<Byte>) {
    Extract(a + b) ==
      match Extract(a)
      case Done(packets, used) => Before(packets, used, Extract(a[used..] + b))
      case Stuck(packets) => Stuck(packets)
  }

  /** Bytes that arrive later continue where the extraction stopped: how a stream is cut into pieces by the
      network has no influence on the packets. */
  lemma {:induction false} ExtractContinues(a: seq<Byte>, b: seq<Byte>)
    ensures Continues(a, b)
  {
    if Waiting(a) {
      assert a[0..] + b == a + b;
      BeforeNothing(Extract(a + b));
    } else if HeaderSize(a) == 0 {
      assert HeaderSize(a + b) == 0;
    } else {
      var n := HeaderSize(a);
      ExtractContinues(a[n..], b);
      ContinuesPast(a, b, n);
    }
  }

  lemma ContinuesPast(a: seq<Byte>, b: seq<Byte>, n: nat)
    requires !Waiting(a) && HeaderSize(a) == n > 0
    requires Continues(a[n..], b)
    ensures Continues(a, b)
  {
    FirstPacket(a, b, n);
    ExtractOne(a, n);
    var rest := Extract(a[n..]);
    if rest.Done? {
      assert a[n..][rest.used..] == a[n + rest.used..];
      BeforeTwice([a[..n]], n, rest.packets, rest.used, Extract(a[n + rest.used..] + b));
    }
  }

  lemma FirstPacket(a: seq<Byte>, b: seq<Byte>, n: nat)
    requires !Waiting(a) && HeaderSize(a) == n > 0
    ensures Extract(a + b) == Before([a[..n]], n, Extract(a[n..] + b))
  {
    assert HeaderSize(a + b) == n && (a + b)[..n] == a[..n];
    assert (a + b)[n..] == a[n..] + b;
    ExtractOne(a + b, n);
  }

  lemma BeforeNothing(e: Extraction)
    ensures Before([], 0, e) == e
  {
    assert [] + e.packets == e.packets;
  }

  /** A stream of well-framed packets comes out as those packets; an incomplete one at the end waits. */
  lemma {:induction false} ExtractsFrames(packets: seq<seq<Byte>>, partial: seq<Byte>)
    requires (forall p <- packets :: WellFramed(p)) && Waiting(partial)
    ensures Extract(Concat(packets) + partial) == Done(packets, |Concat(packets)|)
  {
    if packets == [] {
      assert Concat(packets) + partial == partial;
    } else {
      var first, rest := packets[0], packets[1..];
      assert first in packets;
      var bs := Concat(packets) + partial;
      assert bs[..|first|] == first;
      assert HeaderSize(bs) == HeaderSize(first) == |first|;
      assert bs[|first|..] == Concat(rest) + partial;
      ExtractsFrames(rest, partial);
      assert [first] + rest == packets;
    }
  }

  /** A message that fits a packet arrives as it was sent. */
  lemma MessageArrives(schema: Schema, m: Message, id: Word16, tail: seq<Byte>)
    requires GoodSchema(schema) && GoodMessage(schema, m, MAX_DEPTH) && AllGoodText(m)
    requires HEADER_SIZE + |Serialize(schema, m)| <= 0xFFFF
    ensures var e := Extract(Frame(id, Serialize(schema, m)) + tail);
            |e.packets| > 0 && HeaderId(e.packets[0]) == id && Parse(schema, e.packets[0][HEADER_SIZE..]) == Some(m)
  {
    var packet := Frame(id, Serialize(schema, m));
    HeaderIsExact(id, Serialize(schema, m));
    ExtractsFrames([packet], []);
    assert Concat([packet]) == packet && packet + [] == packet;
    ExtractContinues(packet, tail);
    RoundTrip(schema, m);
  }

  /** A packet of 65536 bytes is announced as empty and the receiver never gets past it. */
  lemma WrappedHeaderSticks(id: Word16, body: seq<Byte>, tail: seq<Byte>)
    ensures Extract(Frame(id, body) + tail) == Stuck([]) <==> (HEADER_SIZE + |body|) % 0x1_0000 == 0
  {
    var bs := Frame(id, body) + tail;
    assert HeaderSize(bs) == (HEADER_SIZE + |body|) % 0x1_0000;
  }

  // ---- The code ------------------------------------------------------------------------------

  /** `_CreateNetBuffer` for any message, given its computed size and its bytes: room, header fields, body. */
  method FillNetBuffer(dataSize: nat, body: seq<Byte>, id: Word16) returns (netBuffer: array<Byte>)
    requires dataSize == |body|
    ensures fresh(netBuffer) && netBuffer[..] == Frame(id, body)
  {
    var packetSize := dataSize + HEADER_SIZE;
    netBuffer := new Byte[packetSize](_ => 0);
    WriteWord(netBuffer, 2, id);
    WriteWord(netBuffer, 0, packetSize % 0x1_0000);
    ghost var header := netBuffer[..HEADER_SIZE];
    assert header == Fixed16(packetSize % 0x1_0000) + Fixed16(id);
    CopyIn(netBuffer, body);
  }

  /** `_CreateNetBuffer` for S2C_LOGIN_RESULT. */
  method CreateNetBuffer(pkt: LoginResult.Packet, id: Word16) returns (netBuffer: array<Byte>)
    requires GoodMessage(LOGIN_RESULT, pkt.View(), MAX_DEPTH)
    ensures fresh(netBuffer) && netBuffer[..] == Frame(id, Serialize(LOGIN_RESULT, pkt.View()))
  {
    var dataSize := pkt.ByteSizeLong();
    var body := pkt.InternalSerialize();
    netBuffer := FillNetBuffer(dataSize, body, id);
  }

  /** One 16-bit store. */
  method WriteWord(buffer: array<Byte>, at: nat, w: Word16)
    requires at + 2 <= buffer.Length
    modifies buffer
    ensures buffer[at..at + 2] == Fixed16(w)
    ensures forall i :: 0 <= i < buffer.Length && !(at <= i < at + 2) ==> buffer[i] == old(buffer[i])
  {
    buffer[at], buffer[at + 1] := w % 0x100, w / 0x100;
  }

  /** Serializing to the bytes behind the header. */
  method CopyIn(buffer: array<Byte>, body: seq<Byte>)
    requires buffer.Length == HEADER_SIZE + |body|
    modifies buffer
    ensures buffer[..] == old(buffer[..HEADER_SIZE]) + body
  {
    forall i | 0 <= i < |body| { buffer[HEADER_SIZE + i] := body[i]; }
  }

  /** `OnRecv`: hands out every complete packet; `stuck` when the loop stops making progress. */
  method OnRecv(buffer: seq<Byte>) returns (packets: seq<seq<Byte>>, processLen: nat, stuck: bool)
    ensures Extract(buffer) == if stuck then Stuck(packets) else Done(packets, processLen)
    ensures processLen <= |buffer|
  {
    packets, processLen := [], 0;
    BeforeNothing(Extract(buffer));
    assert buffer[0..] == buffer;
    while processLen < |buffer|
      invariant processLen <= |buffer|
      invariant Extract(buffer) == Before(packets, processLen, Extract(buffer[processLen..]))
    {
      var rest := buffer[processLen..];
      if |buffer| - processLen < HEADER_SIZE { break; }
      var size := HeaderSize(rest);
      if |buffer| - processLen < size { break; }
      if size == 0 { return packets, processLen, true; }
      ExtractOne(rest, size);
      BeforeTwice(packets, processLen, [rest[..size]], size, Extract(rest[size..]));
      assert rest[size..] == buffer[processLen + size..];
      packets, processLen := packets + [rest[..size]], processLen + size;
    }
    assert Extract(buffer[processLen..]) == Done([], 0);
    stuck := false;
  }
}
