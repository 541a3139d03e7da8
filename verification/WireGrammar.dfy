/** Which bytes are records: a grammar that only says how the bytes are divided, and the reader that accepts exactly its
    sentences. Unlike the writer, it admits long varints and tags with bits beyond the 32 that are kept. */
module WireGrammar {
  import opened Wire
  import opened WireBytes

  // ---- The grammar -----------------------------------------------------------------------------------------

  /** A tag takes up to five bytes, of which the low 32 bits count. */
  predicate SpellsTag(bs: seq<Byte>, tag: nat) {
    EndsAt(bs, 5, |bs|) && Sum(Low7(bs), 128) % W32 == tag
  }

  predicate SpellsSize(bs: seq<Byte>, size: nat) {
    EndsAt(bs, 5, |bs|) && Sum(Low7(bs), 128) == size <= MAX_SIZE
  }

  /** A size of `k` bytes and the bytes. */
  predicate BytesAt(bs: seq<Byte>, bytes: seq<Byte>, k: nat) {
    k <= |bs| && SpellsSize(bs[..k], |bytes|) && bs[k..] == bytes
  }

  /** Fields of `k` bytes and the end tag. */
  ghost predicate GroupAt(bs: seq<Byte>, number: nat, fields: seq<Record>, k: nat, depth: nat)
    decreases fields, 2
  {
    depth > 0 && k <= |bs| && Spells(bs[..k], fields, depth - 1) && SpellsTag(bs[k..], number * 8 + END_GROUP)
  }

  ghost predicate SpellsPayload(bs: seq<Byte>, number: nat, p: Payload, depth: nat)
    decreases p
  {
    match p
    case VarintField(v) => EndsAt(bs, 10, |bs|) && Sum(Low7(bs), 128) % W64 == v
    case Fixed64Field(w) => |bs| == 8 && Sum(Digits(bs), 0x100) == w
    case Fixed32Field(w) => |bs| == 4 && Sum(Digits(bs), 0x100) == w
    case BytesField(bytes) => exists k: nat :: BytesAt(bs, bytes, k)
    case GroupField(fields) => exists k: nat :: GroupAt(bs, number, fields, k, depth)
  }

  /** A tag of `k` bytes and the payload. */
  ghost predicate PayloadAt(bs: seq<Byte>, r: Record, k: nat, depth: nat)
    decreases r, 0
  {
    k <= |bs| && SpellsTag(bs[..k], Tag(r)) && SpellsPayload(bs[k..], r.number, r.payload, depth)
  }

  ghost predicate SpellsRecord(bs: seq<Byte>, r: Record, depth: nat)
    decreases r, 1
  {
    1 <= r.number <= MAX_FIELD_NUMBER && exists k: nat :: PayloadAt(bs, r, k, depth)
  }

  /** A record of `k` bytes and the other records. */
  ghost predicate FirstAt(bs: seq<Byte>, rs: seq<Record>, k: nat, depth: nat)
    requires rs != []
    decreases rs, 0
  {
    k <= |bs| && SpellsRecord(bs[..k], rs[0], depth) && Spells(bs[k..], rs[1..], depth)
  }

  /** The bytes are these records, one after the other, groups nested at most `depth` deep. */
  ghost predicate Spells(bs: seq<Byte>, rs: seq<Record>, depth: nat)
    decreases rs, 1
  {
    if rs == [] then bs == [] else exists k: nat :: FirstAt(bs, rs, k, depth)
  }

  // ---- What is read is spelled -----------------------------------------------------------------------------

  lemma ReadTagSpells(bs: seq<Byte>)
    requires ReadTag(bs).Read?
    ensures SpellsTag(bs[..ReadTag(bs).used], ReadTag(bs).value)
  {
    ReadBase128Exactly(bs, 5);
  }

  lemma ReadBytesSpells(bs: seq<Byte>)
    requires ReadBytes(bs).Read?
    ensures var r := ReadBytes(bs);
            r.used <= |bs| && exists k: nat :: BytesAt(bs[..r.used], r.value, k)
  {
    ReadBase128Exactly(bs, 5);
    var r, k := ReadBytes(bs), ReadSize(bs).used;
    assert bs[..r.used][..k] == bs[..k] && bs[..r.used][k..] == r.value;
    assert BytesAt(bs[..r.used], r.value, k);
  }

  /** Reading a group. */
  lemma GroupTurn(tag: Word32, bs: seq<Byte>, depth: nat)
    requires tag % 8 == 3
    ensures DecodePayload(tag, bs, depth) ==
            if depth == 0 || tag / 8 == 0 then Malformed
            else match Decode(bs, depth - 1, tag / 8)
              case Malformed => Malformed
              case Read(rs, n) => Read(GroupField(rs), n)
  {
  }

  lemma ReadFieldSpells(tag: Word32, bs: seq<Byte>, depth: nat)
    requires tag % 8 != 3 && DecodePayload(tag, bs, depth).Read?
    ensures var r := DecodePayload(tag, bs, depth);
            SpellsPayload(bs[..r.used], tag / 8, r.value, depth) && tag == Tag(Record(tag / 8, r.value))
  {
    match tag % 8
    case 0 => ReadBase128Exactly(bs, 10);
    case 1 => ReadFixed64Exactly(bs);
    case 2 => ReadBytesSpells(bs);
    case 5 => ReadFixed32Exactly(bs);
    case _ =>
  }

  lemma GroupSpelled(bs: seq<Byte>, number: nat, r: Read<seq<Record>>, k: nat, depth: nat)
    requires number > 0 && depth > 0 && SpellsUpTo(bs, r, k, depth - 1, number)
    ensures SpellsPayload(bs[..r.used], number, GroupField(r.value), depth)
  {
    assert bs[..r.used][..k] == bs[..k] && bs[..r.used][k..] == bs[k..r.used];
    assert GroupAt(bs[..r.used], number, r.value, k, depth);
  }

  lemma {:induction false} ReadPayloadSpells(tag: Word32, bs: seq<Byte>, depth: nat)
    requires DecodePayload(tag, bs, depth).Read?
    ensures var r := DecodePayload(tag, bs, depth);
            && SpellsPayload(bs[..r.used], tag / 8, r.value, depth)
            && 1 <= tag / 8 <= MAX_FIELD_NUMBER && tag == Tag(Record(tag / 8, r.value))
    decreases |bs|, 2
  {
    if tag % 8 == 3 {
      GroupTurn(tag, bs, depth);
      var d := Decode(bs, depth - 1, tag / 8);
      var k := DecodedSpells(bs, depth - 1, tag / 8, d);
      GroupSpelled(bs, tag / 8, d, k, depth);
    } else {
      ReadFieldSpells(tag, bs, depth);
    }
  }

  /** `k` of these bytes spell the records, the rest of the used ones is the end tag of the group, if there is one. */
  ghost predicate SpellsUpTo(bs: seq<Byte>, r: Read<seq<Record>>, k: nat, depth: nat, group: nat) {
    match r
    case Malformed => false
    case Read(rs, used) =>
      && k <= used <= |bs| && Spells(bs[..k], rs, depth)
      && if group == 0 then k == |bs| else SpellsTag(bs[k..used], group * 8 + END_GROUP)
  }

  /** The first `n` bytes are the tag of `r`, those up to `used` its payload. */
  ghost predicate TurnAt(bs: seq<Byte>, n: nat, r: Record, used: nat, depth: nat) {
    match r case Record(number, payload) =>
    && n <= used <= |bs| && 1 <= number <= MAX_FIELD_NUMBER
    && SpellsTag(bs[..n], Tag(r)) && SpellsPayload(bs[n..][..used - n], number, payload, depth)
  }

  lemma FirstSpelled(bs: seq<Byte>, n: nat, r: Record, used: nat, k: nat, rest: seq<Record>, depth: nat)
    requires TurnAt(bs, n, r, used, depth) && used + k <= |bs| && Spells(bs[used..][..k], rest, depth)
    ensures Spells(bs[..used + k], [r] + rest, depth)
  {
    var all := bs[..used + k];
    assert all[..used][..n] == bs[..n] && all[..used][n..] == bs[n..][..used - n];
    assert PayloadAt(all[..used], r, n, depth);
    assert all[used..] == bs[used..][..k];
    assert ([r] + rest)[1..] == rest;
    assert FirstAt(all, [r] + rest, used, depth);
  }

  lemma MoreSpelled(bs: seq<Byte>, n: nat, r: Record, used: nat, k: nat, rest: Read<seq<Record>>,
                    all: Read<seq<Record>>, depth: nat, group: nat)
    requires TurnAt(bs, n, r, used, depth) && used <= k && all == Prepend(r, used, rest)
    requires SpellsUpTo(bs[used..], rest, k - used, depth, group)
    ensures SpellsUpTo(bs, all, k, depth, group)
  {
    match rest case Read(more, n') =>
    FirstSpelled(bs, n, r, used, k - used, more, depth);
    assert used + (k - used) == k && used + n' <= |bs|;
    assert bs[used..][k - used..n'] == bs[k..used + n'];
  }

  predicate Decoded(bs: seq<Byte>, depth: nat, group: nat, d: Read<seq<Record>>) {
    match d
    case Malformed => false
    case Read(rs, used) => Decode(bs, depth, group) == d
  }

  predicate Ends(tag: Word32) { tag == 0 || tag % 8 == END_GROUP }

  lemma EndSpells(bs: seq<Byte>, depth: nat, group: nat, d: Read<seq<Record>>)
    requires Decoded(bs, depth, group, d) && (bs == [] || Ends(ReadTag(bs).value))
    ensures SpellsUpTo(bs, d, 0, depth, group)
  {
    if bs != [] {
      ReadTagSpells(bs);
      assert bs[0..ReadTag(bs).used] == bs[..ReadTag(bs).used];
    }
  }

  lemma TagIsRead(bs: seq<Byte>, depth: nat, group: nat, d: Read<seq<Record>>) returns (tag: Word32, n: nat)
    requires bs != [] && Decoded(bs, depth, group, d)
    ensures ReadTag(bs) == Read(tag, n) && 0 < n <= |bs|
  {
    tag, n := ReadTag(bs).value, ReadTag(bs).used;
  }

  /** One turn of the reading loop that does not end it. */
  lemma DecodeTurn(bs: seq<Byte>, depth: nat, group: nat, d: Read<seq<Record>>, tag: Word32, n: nat)
    returns (p: Read<Payload>, rest: Read<seq<Record>>)
    requires bs != [] && Decoded(bs, depth, group, d) && ReadTag(bs) == Read(tag, n) && !Ends(tag)
    ensures p == DecodePayload(tag, bs[n..], depth) && p.Read? && 0 < n <= n + p.used <= |bs|
    ensures Decoded(bs[n + p.used..], depth, group, rest) && d == Prepend(Record(tag / 8, p.value), n + p.used, rest)
  {
    p := DecodePayload(tag, bs[n..], depth);
    rest := Decode(bs[n + p.used..], depth, group);
  }

  lemma {:induction false} DecodedSpells(bs: seq<Byte>, depth: nat, group: nat, d: Read<seq<Record>>) returns (k: nat)
    requires Decoded(bs, depth, group, d)
    ensures SpellsUpTo(bs, d, k, depth, group)
    decreases |bs|, 1
  {
    var tag: Word32, n: nat := 0, 0;
    if bs != [] { tag, n := TagIsRead(bs, depth, group, d); }
    if Ends(tag) {
      EndSpells(bs, depth, group, d);
      k := 0;
    } else {
      var p, rest := DecodeTurn(bs, depth, group, d, tag, n);
      TurnSpells(bs, n, tag, p, depth);
      var more := DecodedSpells(bs[n + p.used..], depth, group, rest);
      k := n + p.used + more;
      MoreSpelled(bs, n, Record(tag / 8, p.value), n + p.used, k, rest, d, depth, group);
    }
  }

  lemma {:induction false} TurnSpells(bs: seq<Byte>, n: nat, tag: Word32, p: Read<Payload>, depth: nat)
    requires 0 < n <= |bs| && ReadTag(bs) == Read(tag, n) && p == DecodePayload(tag, bs[n..], depth) && p.Read?
    ensures TurnAt(bs, n, Record(tag / 8, p.value), n + p.used, depth)
    decreases |bs|, 0
  {
    ReadTagSpells(bs);
    ReadPayloadSpells(tag, bs[n..], depth);
  }

  // ---- What is spelled is read -----------------------------------------------------------------------------

  lemma SpelledEnds(bs: seq<Byte>, tail: seq<Byte>, max: nat)
    requires EndsAt(bs, max, |bs|)
    ensures EndsAt(bs + tail, max, |bs|) && (bs + tail)[..|bs|] == bs
  {
  }

  lemma Regrouped(bs: seq<Byte>, k: nat, tail: seq<Byte>)
    requires k <= |bs|
    ensures bs[..k] + (bs[k..] + tail) == bs + tail
  {
  }

  lemma SpelledTagIsRead(bs: seq<Byte>, tag: nat, tail: seq<Byte>)
    requires SpellsTag(bs, tag)
    ensures ReadTag(bs + tail) == Read(tag, |bs|)
  {
    SpelledEnds(bs, tail, 5);
    ReadersExactly(bs + tail);
  }

  lemma SpelledBytesAreRead(bs: seq<Byte>, bytes: seq<Byte>, k: nat, tail: seq<Byte>)
    requires BytesAt(bs, bytes, k)
    ensures ReadBytes(bs + tail) == Read(bytes, |bs|)
  {
    SpelledEnds(bs[..k], bs[k..] + tail, 5);
    Regrouped(bs, k, tail);
    ReadersExactly(bs + tail);
    assert (bs + tail)[k..k + |bytes|] == bytes;
  }

  lemma {:induction false} SpelledPayloadIsRead(bs: seq<Byte>, r: Record, tail: seq<Byte>, depth: nat)
    requires 1 <= r.number <= MAX_FIELD_NUMBER && SpellsPayload(bs, r.number, r.payload, depth)
    ensures Tag(r) < W32 && DecodePayload(Tag(r), bs + tail, depth) == Read(r.payload, |bs|)
    decreases r, 0
  {
    TagParts(r);
    match r.payload
    case GroupField(fields) =>
      var k: nat :| GroupAt(bs, r.number, fields, k, depth);
      SpelledGroupIsRead(bs, r.number, fields, k, tail, depth);
      GroupTurn(Tag(r), bs + tail, depth);
    case _ => SpelledFieldIsRead(bs, r, tail, depth);
  }

  lemma {:induction false} SpelledGroupIsRead(bs: seq<Byte>, number: nat, fields: seq<Record>, k: nat, tail: seq<Byte>,
                                              depth: nat)
    requires 1 <= number <= MAX_FIELD_NUMBER && GroupAt(bs, number, fields, k, depth)
    ensures depth > 0 && Decoded(bs + tail, depth - 1, number, Read(fields, |bs|))
    decreases fields, 2
  {
    SpelledEndIsRead(bs[k..], number, tail, depth - 1);
    SpelledIsRead(bs[..k], fields, bs[k..] + tail, depth - 1, number, Read([], |bs| - k));
    Regrouped(bs, k, tail);
    assert fields + [] == fields;
  }

  lemma SpelledEndIsRead(bs: seq<Byte>, number: nat, tail: seq<Byte>, depth: nat)
    requires SpellsTag(bs, number * 8 + END_GROUP) && 1 <= number <= MAX_FIELD_NUMBER
    ensures Decoded(bs + tail, depth, number, Read([], |bs|))
  {
    SpelledTagIsRead(bs, number * 8 + END_GROUP, tail);
    DecodeAtEndTag(bs + tail, |bs|, depth, number);
  }

  lemma SpelledFieldIsRead(bs: seq<Byte>, r: Record, tail: seq<Byte>, depth: nat)
    requires 1 <= r.number <= MAX_FIELD_NUMBER && Tag(r) < W32 && SpellsPayload(bs, r.number, r.payload, depth)
    requires !r.payload.GroupField?
    ensures DecodePayload(Tag(r), bs + tail, depth) == Read(r.payload, |bs|)
  {
    TagParts(r);
    match r.payload
    case VarintField(_) =>
      SpelledEnds(bs, tail, 10);
      ReadersExactly(bs + tail);
    case Fixed64Field(_) =>
      ReadFixed64Exactly(bs + tail);
      assert (bs + tail)[..8] == bs;
    case Fixed32Field(_) =>
      ReadFixed32Exactly(bs + tail);
      assert (bs + tail)[..4] == bs;
    case BytesField(bytes) =>
      var k: nat :| BytesAt(bs, bytes, k);
      SpelledBytesAreRead(bs, bytes, k, tail);
  }

  lemma {:induction false} SpelledRecordIsRead(bs: seq<Byte>, r: Record, tail: seq<Byte>, depth: nat, group: nat,
                                               d: Read<seq<Record>>)
    requires SpellsRecord(bs, r, depth) && Decoded(tail, depth, group, d)
    ensures Decoded(bs + tail, depth, group, Prepend(r, |bs|, d))
    decreases r, 1
  {
    var k: nat :| PayloadAt(bs, r, k, depth);
    TagParts(r);
    Regrouped(bs, k, tail);
    SpelledTagIsRead(bs[..k], Tag(r), bs[k..] + tail);
    SpelledPayloadIsRead(bs[k..], r, tail, depth);
    assert (bs + tail)[k..] == bs[k..] + tail && (bs + tail)[|bs|..] == tail;
  }

  lemma {:induction false} SpelledIsRead(bs: seq<Byte>, rs: seq<Record>, tail: seq<Byte>, depth: nat, group: nat,
                                         d: Read<seq<Record>>)
    requires Spells(bs, rs, depth) && Decoded(tail, depth, group, d)
    ensures Decoded(bs + tail, depth, group, Continue(rs, |bs|, d))
    decreases rs, 1
  {
    if rs == [] {
      assert bs + tail == tail && rs + d.value == d.value;
    } else {
      var k: nat :| FirstAt(bs, rs, k, depth);
      var rest := Continue(rs[1..], |bs| - k, d);
      SpelledIsRead(bs[k..], rs[1..], tail, depth, group, d);
      SpelledRecordIsRead(bs[..k], rs[0], bs[k..] + tail, depth, group, rest);
      Regrouped(bs, k, tail);
      ContinueFromFirst(rs, k, |bs| - k, d);
    }
  }

  // ---- Both ------------------------------------------------------------------------------------------------

  /** The reader accepts exactly the sentences of the grammar, and yields the records they spell. */
  lemma DecodesExactly(bs: seq<Byte>, rs: seq<Record>, depth: nat)
    ensures Decode(bs, depth, 0) == Read(rs, |bs|) <==> Spells(bs, rs, depth)
  {
    if Decode(bs, depth, 0) == Read(rs, |bs|) {
      var k := DecodedSpells(bs, depth, 0, Read(rs, |bs|));
      assert bs[..k] == bs;
    }
    if Spells(bs, rs, depth) {
      SpelledIsRead(bs, rs, [], depth, 0, Read([], 0));
      assert bs + [] == bs && rs + [] == rs;
    }
  }

  /** No bytes spell two different record sequences. */
  lemma SpellingIsUnique(bs: seq<Byte>, rs: seq<Record>, others: seq<Record>, depth: nat)
    requires Spells(bs, rs, depth) && Spells(bs, others, depth)
    ensures rs == others
  {
    DecodesExactly(bs, rs, depth);
    DecodesExactly(bs, others, depth);
  }

  /** What the writer writes is one spelling. */
  lemma EncodedSpells(rs: seq<Record>, depth: nat)
    requires forall r <- rs :: Encodable(r, depth)
    ensures Spells(Encode(rs), rs, depth)
  {
    RecordsRoundTrip(rs, [], depth, 0);
    assert Encode(rs) + [] == Encode(rs) && rs + [] == rs;
    DecodesExactly(Encode(rs), rs, depth);
  }
}
