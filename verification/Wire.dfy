/** The protocol-buffer wire format: base-128 varints, little-endian words and tagged records, as the
    Protocol Buffers "Encoding" specification defines them and the parse primitives read them. */
module Wire {

  type Byte = b: int | 0 <= b < 0x100
  type Word32 = w: int | 0 <= w < 0x1_0000_0000
  type Word64 = w: int | 0 <= w < 0x1_0000_0000_0000_0000

  const W32 := 0x1_0000_0000
  const W64 := 0x1_0000_0000_0000_0000

  /** Sizes must fit a signed 32-bit limit with room for the 16 slop bytes. */
  const MAX_SIZE := 0x7FFF_FFFF - 16

  const MAX_FIELD_NUMBER := 0x1FFF_FFFF

  /** Default recursion limit of a parse. */
  const MAX_DEPTH := 100

  /** A value read from the front of some bytes, with the number of bytes it took. */
  datatype Read<+T> = Malformed | Read(value: T, used: nat)

  // ---- Varints (section "Base 128 Varints") --------------------------------------------------

  function Varint(v: nat): (bs: seq<Byte>)
    ensures |bs| > 0
  {
    if v < 128 then [v] else [v % 128 + 128] + Varint(v / 128)
  }

  /** At most `max` bytes, the last one without the continuation bit. */
  function ReadBase128(bs: seq<Byte>, max: nat): (r: Read<nat>)
    ensures r.Read? ==> 0 < r.used <= |bs| && r.used <= max
  {
    if max == 0 || bs == [] then Malformed
    else if bs[0] < 128 then Read(bs[0], 1)
    else match ReadBase128(bs[1..], max - 1)
      case Malformed => Malformed
      case Read(v, n) => Read(bs[0] - 128 + 128 * v, n + 1)
  }

  function ReadVarint64(bs: seq<Byte>): (r: Read<Word64>)
    ensures r.Read? ==> 0 < r.used <= |bs|
  {
    match ReadBase128(bs, 10)
    case Malformed => Malformed
    case Read(v, n) => Read(v % W64, n)
  }

  /** Reads up to ten bytes as well, keeping the low 32 bits. */
  function ReadVarint32(bs: seq<Byte>): (r: Read<Word32>)
    ensures r.Read? ==> 0 < r.used <= |bs|
  {
    match ReadBase128(bs, 10)
    case Malformed => Malformed
    case Read(v, n) => Read(v % W32, n)
  }

  /** Tags take at most five bytes. */
  function ReadTag(bs: seq<Byte>): (r: Read<Word32>)
    ensures r.Read? ==> 0 < r.used <= |bs|
  {
    match ReadBase128(bs, 5)
    case Malformed => Malformed
    case Read(v, n) => Read(v % W32, n)
  }

  function ReadSize(bs: seq<Byte>): (r: Read<nat>)
    ensures r.Read? ==> 0 < r.used <= |bs| && r.value <= MAX_SIZE
  {
    match ReadBase128(bs, 5)
    case Malformed => Malformed
    case Read(v, n) => if v <= MAX_SIZE then Read(v, n) else Malformed
  }

  function Pow128(n: nat): nat {
    if n == 0 then 1 else 128 * Pow128(n - 1)
  }

  lemma {:induction false} VarintFits(v: nat, n: nat)
    requires n > 0 && v < Pow128(n)
    ensures |Varint(v)| <= n
  {
    if v >= 128 { VarintFits(v / 128, n - 1); }
  }

  lemma {:induction false} VarintRoundTrip(v: nat, tail: seq<Byte>, max: nat)
    requires |Varint(v)| <= max
    ensures ReadBase128(Varint(v) + tail, max) == Read(v, |Varint(v)|)
  {
    if v >= 128 {
      VarintRoundTrip(v / 128, tail, max - 1);
      assert (Varint(v) + tail)[1..] == Varint(v / 128) + tail;
    }
  }

  lemma VarintWidths(v: nat)
    ensures v < W64 ==> |Varint(v)| <= 10
    ensures v < W32 ==> |Varint(v)| <= 5
  {
    assert Pow128(5) == 0x8_0000_0000;
    assert Pow128(10) == 0x40_0000_0000_0000_0000 by {
      assert Pow128(10) == 0x8_0000_0000 * Pow128(5);
    }
    if v < W32 { VarintFits(v, 5); }
    if v < W64 { VarintFits(v, 10); }
  }

  // ---- Fixed-width words ---------------------------------------------------------------------

  function Fixed32(w: Word32): (bs: seq<Byte>)
    ensures |bs| == 4
  {
    [w % 0x100, w / 0x100 % 0x100, w / 0x1_0000 % 0x100, w / 0x100_0000]
  }

  function ReadFixed32(bs: seq<Byte>): (r: Read<Word32>)
    ensures r.Read? ==> r.used <= |bs|
  {
    if |bs| < 4 then Malformed
    else
      var b0: nat, b1: nat, b2: nat, b3: nat := bs[0], bs[1], bs[2], bs[3];
      Read(b0 + 0x100 * b1 + 0x1_0000 * b2 + 0x100_0000 * b3, 4)
  }

  function Fixed64(w: Word64): (bs: seq<Byte>)
    ensures |bs| == 8
  {
    Fixed32(w % W32) + Fixed32(w / W32)
  }

  function ReadFixed64(bs: seq<Byte>): (r: Read<Word64>)
    ensures r.Read? ==> r.used <= |bs|
  {
    if |bs| < 8 then Malformed
    else Read(ReadFixed32(bs).value + W32 * ReadFixed32(bs[4..]).value, 8)
  }

  lemma Fixed32RoundTrip(w: Word32, tail: seq<Byte>)
    ensures ReadFixed32(Fixed32(w) + tail) == Read(w, 4)
  {
    var bs := Fixed32(w) + tail;
    assert bs[0] == Fixed32(w)[0] && bs[1] == Fixed32(w)[1] && bs[2] == Fixed32(w)[2] && bs[3] == Fixed32(w)[3];
    WordFromBytes(w);
  }

  lemma WordFromBytes(w: Word32)
    ensures w % 0x100 + 0x100 * (w / 0x100 % 0x100) + 0x1_0000 * (w / 0x1_0000 % 0x100) +
            0x100_0000 * (w / 0x100_0000) == w
    ensures w / 0x100_0000 < 0x100
  {
    var w1 := w / 0x100;
    var w2 := w1 / 0x100;
    assert w == 0x100 * w1 + w % 0x100;
    assert w1 == 0x100 * w2 + w1 % 0x100;
    assert w2 == w / 0x1_0000 && w2 / 0x100 == w / 0x100_0000;
  }

  lemma Fixed64RoundTrip(w: Word64, tail: seq<Byte>)
    ensures ReadFixed64(Fixed64(w) + tail) == Read(w, 8)
  {
    var bs := Fixed64(w) + tail;
    assert bs == Fixed32(w % W32) + (Fixed32(w / W32) + tail);
    assert bs[4..] == Fixed32(w / W32) + tail;
    Fixed32RoundTrip(w % W32, Fixed32(w / W32) + tail);
    Fixed32RoundTrip(w / W32, tail);
  }

  // ---- Records (sections "Message Structure" and "Length-Delimited Records") ------------------

  /** One field on the wire. Unknown fields are kept in exactly this form. */
  datatype Record = Record(number: nat, payload: Payload)

  datatype Payload =
    | VarintField(v: Word64)
    | Fixed64Field(w64: Word64)
    | BytesField(bytes: seq<Byte>)
    | GroupField(fields: seq<Record>)
    | Fixed32Field(w32: Word32)

  const END_GROUP := 4

  function WireType(p: Payload): nat {
    match p
    case VarintField(_) => 0
    case Fixed64Field(_) => 1
    case BytesField(_) => 2
    case GroupField(_) => 3
    case Fixed32Field(_) => 5
  }

  function Tag(r: Record): nat { r.number * 8 + WireType(r.payload) }

  function Encode(rs: seq<Record>): seq<Byte>
    decreases rs
  {
    if rs == [] then [] else EncodeRecord(rs[0]) + Encode(rs[1..])
  }

  function EncodeRecord(r: Record): (bs: seq<Byte>)
    ensures |bs| > 0
    decreases r, 1
  {
    Varint(Tag(r)) + EncodePayload(r.number, r.payload)
  }

  function EncodePayload(number: nat, p: Payload): seq<Byte>
    decreases p, 0
  {
    match p
    case VarintField(v) => Varint(v)
    case Fixed64Field(w) => Fixed64(w)
    case BytesField(bytes) => Varint(|bytes|) + bytes
    case GroupField(fields) => Encode(fields) + Varint(number * 8 + END_GROUP)
    case Fixed32Field(w) => Fixed32(w)
  }

  /** Reads records up to the end of the bytes (`group == 0`), or up to the end tag of group `group`. */
  function Decode(bs: seq<Byte>, depth: nat, group: nat): (r: Read<seq<Record>>)
    ensures r.Read? ==> r.used <= |bs| && (group == 0 ==> r.used == |bs|)
    decreases |bs|, 0
  {
    if bs == [] then (if group == 0 then Read([], 0) else Malformed)
    else match ReadTag(bs)
      case Malformed => Malformed
      case Read(tag, n) =>
        if tag == 0 || tag % 8 == END_GROUP then
          if group != 0 && tag == group * 8 + END_GROUP then Read([], n) else Malformed
        else match DecodePayload(tag, bs[n..], depth)
          case Malformed => Malformed
          case Read(payload, k) => Prepend(Record(tag / 8, payload), n + k, Decode(bs[n + k..], depth, group))
  }

  function Prepend(r: Record, used: nat, rest: Read<seq<Record>>): Read<seq<Record>> {
    match rest
    case Malformed => Malformed
    case Read(rs, n) => Read([r] + rs, used + n)
  }

  function DecodePayload(tag: Word32, bs: seq<Byte>, depth: nat): (r: Read<Payload>)
    ensures r.Read? ==> r.used <= |bs|
    decreases |bs|, 1
  {
    if tag / 8 == 0 then Malformed
    else match tag % 8
      case 0 => (match ReadVarint64(bs) case Malformed => Malformed case Read(v, n) => Read(VarintField(v), n))
      case 1 => (match ReadFixed64(bs) case Malformed => Malformed case Read(w, n) => Read(Fixed64Field(w), n))
      case 2 => (match ReadBytes(bs) case Malformed => Malformed case Read(b, n) => Read(BytesField(b), n))
      case 3 =>
        if depth == 0 then Malformed
        else (match Decode(bs, depth - 1, tag / 8)
              case Malformed => Malformed
              case Read(rs, n) => Read(GroupField(rs), n))
      case 5 => (match ReadFixed32(bs) case Malformed => Malformed case Read(w, n) => Read(Fixed32Field(w), n))
      case _ => Malformed
  }

  function ReadBytes(bs: seq<Byte>): (r: Read<seq<Byte>>)
    ensures r.Read? ==> r.used <= |bs| && |r.value| <= MAX_SIZE
  {
    match ReadSize(bs)
    case Malformed => Malformed
    case Read(size, n) => if size <= |bs| - n then Read(bs[n..n + size], n + size) else Malformed
  }

  // ---- Round trip ----------------------------------------------------------------------------

  /** Records the format can carry at this nesting depth. */
  predicate Encodable(r: Record, depth: nat)
    decreases r
  {
    && 1 <= r.number <= MAX_FIELD_NUMBER
    && match r.payload
       case BytesField(bytes) => |bytes| <= MAX_SIZE
       case GroupField(fields) => depth > 0 && forall f <- fields :: Encodable(f, depth - 1)
       case _ => true
  }

  lemma TagRoundTrip(tag: nat, tail: seq<Byte>)
    requires tag < W32
    ensures ReadTag(Varint(tag) + tail) == Read(tag, |Varint(tag)|)
  {
    VarintWidths(tag);
    VarintRoundTrip(tag, tail, 5);
  }

  lemma BytesRoundTrip(bytes: seq<Byte>, tail: seq<Byte>)
    requires |bytes| <= MAX_SIZE
    ensures ReadBytes(Varint(|bytes|) + bytes + tail) == Read(bytes, |Varint(|bytes|)| + |bytes|)
  {
    var size := Varint(|bytes|);
    VarintWidths(|bytes|);
    VarintRoundTrip(|bytes|, bytes + tail, 5);
    assert size + bytes + tail == size + (bytes + tail);
    assert (size + bytes + tail)[|size|..|size| + |bytes|] == bytes;
  }

  lemma TagParts(r: Record)
    requires 1 <= r.number <= MAX_FIELD_NUMBER
    ensures Tag(r) < W32 && Tag(r) / 8 == r.number && Tag(r) % 8 == WireType(r.payload) && Tag(r) % 8 != END_GROUP
    ensures r.number * 8 + END_GROUP < W32
  {
  }

  lemma {:induction false} PayloadRoundTrip(r: Record, tail: seq<Byte>, depth: nat)
    requires Encodable(r, depth)
    ensures Tag(r) < W32
    ensures DecodePayload(Tag(r), EncodePayload(r.number, r.payload) + tail, depth)
            == Read(r.payload, |EncodePayload(r.number, r.payload)|)
    decreases r, 0
  {
    TagParts(r);
    match r.payload
    case VarintField(v) =>
      VarintWidths(v);
      VarintRoundTrip(v, tail, 10);
    case Fixed64Field(w) => Fixed64RoundTrip(w, tail);
    case BytesField(bytes) => BytesRoundTrip(bytes, tail);
    case Fixed32Field(w) => Fixed32RoundTrip(w, tail);
    case GroupField(fields) => GroupRoundTrip(r.number, fields, tail, depth);
  }

  lemma EndTagClosesGroup(number: nat, tail: seq<Byte>, depth: nat)
    requires 1 <= number <= MAX_FIELD_NUMBER
    ensures Decode(Varint(number * 8 + END_GROUP) + tail, depth, number)
            == Read([], |Varint(number * 8 + END_GROUP)|)
  {
    var end := Varint(number * 8 + END_GROUP);
    TagRoundTrip(number * 8 + END_GROUP, tail);
    DecodeAtEndTag(end + tail, |end|, depth, number);
  }

  lemma DecodeAtEndTag(bs: seq<Byte>, n: nat, depth: nat, number: nat)
    requires bs != [] && 1 <= number <= MAX_FIELD_NUMBER && ReadTag(bs) == Read(number * 8 + END_GROUP, n)
    ensures Decode(bs, depth, number) == Read([], n)
  {
  }

  lemma {:induction false} GroupRoundTrip(number: nat, fields: seq<Record>, tail: seq<Byte>, depth: nat)
    requires 1 <= number <= MAX_FIELD_NUMBER && depth > 0 && forall f <- fields :: Encodable(f, depth - 1)
    ensures var body := Encode(fields) + Varint(number * 8 + END_GROUP);
            Decode(body + tail, depth - 1, number) == Read(fields, |body|)
    decreases fields, 2
  {
    var end := Varint(number * 8 + END_GROUP);
    assert Encode(fields) + end + tail == Encode(fields) + (end + tail);
    EndTagClosesGroup(number, tail, depth - 1);
    RecordsRoundTrip(fields, end + tail, depth - 1, number);
    assert fields + [] == fields;
  }

  /** Reading one encoded record leaves the rest to be read. */
  lemma {:induction false} RecordRoundTrip(r: Record, rest: seq<Byte>, depth: nat, group: nat)
    requires Encodable(r, depth)
    ensures Decode(EncodeRecord(r) + rest, depth, group)
            == Prepend(r, |EncodeRecord(r)|, Decode(rest, depth, group))
    decreases r, 1
  {
    TagParts(r);
    var tag, payload := Varint(Tag(r)), EncodePayload(r.number, r.payload);
    var bs := EncodeRecord(r) + rest;
    assert bs == tag + (payload + rest);
    TagRoundTrip(Tag(r), payload + rest);
    assert bs[|tag|..] == payload + rest;
    PayloadRoundTrip(r, rest, depth);
    assert bs[|tag| + |payload|..] == rest;
  }

  function Continue(rs: seq<Record>, used: nat, rest: Read<seq<Record>>): Read<seq<Record>> {
    match rest
    case Malformed => Malformed
    case Read(more, n) => Read(rs + more, used + n)
  }

  lemma ContinueFromFirst(rs: seq<Record>, first: nat, used: nat, rest: Read<seq<Record>>)
    requires rs != []
    ensures Prepend(rs[0], first, Continue(rs[1..], used, rest)) == Continue(rs, first + used, rest)
  {
    if rest.Read? { assert [rs[0]] + (rs[1..] + rest.value) == rs + rest.value; }
  }

  /** Decoding an encoded record sequence gives the records back and goes on with what follows. */
  lemma {:induction false} RecordsRoundTrip(rs: seq<Record>, tail: seq<Byte>, depth: nat, group: nat)
    requires forall r <- rs :: Encodable(r, depth)
    ensures Decode(Encode(rs) + tail, depth, group) == Continue(rs, |Encode(rs)|, Decode(tail, depth, group))
    decreases rs, 1
  {
    var rest := Decode(tail, depth, group);
    if rs == [] {
      assert Encode(rs) + tail == tail;
      if rest.Read? { assert rs + rest.value == rest.value; }
    } else {
      assert rs[0] in rs;
      assert Encode(rs) + tail == EncodeRecord(rs[0]) + (Encode(rs[1..]) + tail);
      RecordRoundTrip(rs[0], Encode(rs[1..]) + tail, depth, group);
      RecordsRoundTrip(rs[1..], tail, depth, group);
      ContinueFromFirst(rs, |EncodeRecord(rs[0])|, |Encode(rs[1..])|, rest);
    }
  }

  lemma {:induction false} EncodeAppend(a: seq<Record>, b: seq<Record>)
    ensures Encode(a + b) == Encode(a) + Encode(b)
    decreases |a|
  {
    if a == [] {
      assert a + b == b;
    } else {
      assert (a + b)[1..] == a[1..] + b;
      EncodeAppend(a[1..], b);
    }
  }
}
