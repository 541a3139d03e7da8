/** Which bytes the codec puts on the wire, said by place value: without reference to its own readers and writers. */
module WireBytes {
  import opened Wire
  import opened Message
  import opened MessageLaws
  import opened Protocol
  import Framing

  // ---- Place value ---------------------------------------------------------------------------------------

  function Power(base: nat, n: nat): nat {
    if n == 0 then 1 else base * Power(base, n - 1)
  }

  /** The sum of `digits[i] * base^i`. */
  function Sum(digits: seq<nat>, base: nat): nat {
    if digits == [] then 0
    else Sum(digits[..|digits| - 1], base) + digits[|digits| - 1] * Power(base, |digits| - 1)
  }

  /** Taking off the lowest digit divides by the base. */
  lemma {:induction false} LowestDigit(digits: seq<nat>, base: nat)
    requires digits != []
    ensures Sum(digits, base) == digits[0] + base * Sum(digits[1..], base)
  {
    var n := |digits|;
    if n == 1 {
      assert digits[..0] == [] && digits[1..] == [];
      assert Power(base, 0) == 1;
    } else {
      var init, rest := digits[..n - 1], digits[1..];
      LowestDigit(init, base);
      assert init[1..] == rest[..n - 2] && rest[n - 2] == digits[n - 1];
      OneUp(digits[n - 1], base, Power(base, n - 2), Sum(init[1..], base));
    }
  }

  lemma OneUp(d: nat, base: nat, p: nat, sum: nat)
    ensures base * sum + d * (base * p) == base * (sum + d * p)
  {
    assert d * (base * p) == base * (d * p);
  }

  /** The low seven bits of each byte. */
  function Low7(bs: seq<Byte>): (digits: seq<nat>)
    ensures |digits| == |bs| && forall i :: 0 <= i < |bs| ==> digits[i] == bs[i] % 128
  {
    seq(|bs|, i requires 0 <= i < |bs| => bs[i] % 128)
  }

  function Digits(bs: seq<Byte>): (digits: seq<nat>)
    ensures |digits| == |bs| && forall i :: 0 <= i < |bs| ==> digits[i] == bs[i]
  {
    seq(|bs|, i requires 0 <= i < |bs| => bs[i])
  }

  // ---- Varints ---------------------------------------------------------------------------------------------

  /** Groups of seven bits, the lowest first; all bytes but the last have the high bit set. */
  predicate IsBase128(bs: seq<Byte>, v: nat) {
    && bs != [] && bs[|bs| - 1] < 128 && (forall i :: 0 <= i < |bs| - 1 ==> bs[i] >= 128)
    && Sum(Low7(bs), 128) == v
  }

  lemma Base128Tail(bs: seq<Byte>)
    requires bs != []
    ensures Sum(Low7(bs), 128) == bs[0] % 128 + 128 * Sum(Low7(bs[1..]), 128)
  {
    LowestDigit(Low7(bs), 128);
    assert Low7(bs)[1..] == Low7(bs[1..]);
  }

  lemma Longer(b: Byte, rest: seq<Byte>, w: nat)
    requires b >= 128 && IsBase128(rest, w)
    ensures IsBase128([b] + rest, b - 128 + 128 * w)
  {
    var bs := [b] + rest;
    assert bs[1..] == rest && bs[|bs| - 1] == rest[|rest| - 1];
    assert forall i :: 0 < i < |bs| ==> bs[i] == rest[i - 1];
    Base128Tail(bs);
  }

  lemma Shorter(bs: seq<Byte>, v: nat)
    requires IsBase128(bs, v) && |bs| > 1
    ensures IsBase128(bs[1..], v / 128) && bs[0] == v % 128 + 128
  {
    var rest := bs[1..];
    Base128Tail(bs);
    assert rest[|rest| - 1] == bs[|bs| - 1];
    assert forall i :: 0 <= i < |rest| ==> rest[i] == bs[i + 1];
  }

  lemma Single(b: Byte)
    requires b < 128
    ensures IsBase128([b], b)
  {
    Base128Tail([b]);
    assert [b][1..] == [];
  }

  /** What is written is the shortest such sequence. */
  lemma {:induction false} VarintBytes(v: nat)
    ensures IsBase128(Varint(v), v) && (|Varint(v)| > 1 ==> Varint(v)[|Varint(v)| - 1] != 0)
  {
    if v < 128 {
      Single(v);
    } else {
      VarintBytes(v / 128);
      Longer(v % 128 + 128, Varint(v / 128), v / 128);
      if |Varint(v / 128)| == 1 { assert Varint(v / 128) == [v / 128]; }
    }
  }

  lemma VarintStep(bs: seq<Byte>, rest: seq<Byte>, v: nat)
    requires |bs| > 1 && rest == bs[1..] == Varint(v / 128) && bs[0] == v % 128 + 128 && v / 128 > 0
    ensures bs == Varint(v)
  {
    LongVarintIs(v);
    assert bs == [bs[0]] + rest;
  }

  lemma LongVarintIs(v: nat)
    requires v / 128 > 0
    ensures Varint(v) == [v % 128 + 128] + Varint(v / 128)
  {
  }

  /** There is no other shortest one. */
  lemma {:induction false} OnlyVarint(bs: seq<Byte>, v: nat)
    requires IsBase128(bs, v) && (|bs| > 1 ==> bs[|bs| - 1] != 0)
    ensures bs == Varint(v)
  {
    if |bs| == 1 {
      Base128Tail(bs);
      assert bs[1..] == [];
    } else {
      var rest := bs[1..];
      Shorter(bs, v);
      assert rest[|rest| - 1] == bs[|bs| - 1];
      Positive(rest);
      OnlyVarint(rest, v / 128);
      VarintStep(bs, rest, v);
    }
  }

  lemma {:induction false} Positive(bs: seq<Byte>)
    requires bs != [] && bs[|bs| - 1] % 128 != 0
    ensures Sum(Low7(bs), 128) > 0
  {
    Base128Tail(bs);
    if |bs| > 1 { Positive(bs[1..]); }
  }

  /** A varint ends at the first of the first `max` bytes without the high bit. */
  predicate EndsAt(bs: seq<Byte>, max: nat, n: nat) {
    0 < n <= |bs| && n <= max && bs[n - 1] < 128 && forall i :: 0 <= i < n - 1 ==> bs[i] >= 128
  }

  lemma EndsFirst(bs: seq<Byte>, max: nat)
    requires max > 0 && bs != [] && bs[0] < 128
    ensures EndsAt(bs, max, 1) && bs[0] == Sum(Low7(bs[..1]), 128)
  {
    Base128Tail(bs[..1]);
    assert bs[..1][1..] == [];
  }

  lemma EndsLater(bs: seq<Byte>, max: nat, n: nat)
    requires max > 0 && bs != [] && bs[0] >= 128 && EndsAt(bs[1..], max - 1, n)
    ensures EndsAt(bs, max, n + 1)
    ensures bs[0] - 128 + 128 * Sum(Low7(bs[1..][..n]), 128) == Sum(Low7(bs[..n + 1]), 128)
  {
    Base128Tail(bs[..n + 1]);
    assert bs[..n + 1][1..] == bs[1..][..n];
    assert forall i :: 0 < i < n + 1 ==> bs[i] == bs[1..][i - 1];
  }

  /** Reading succeeds exactly if there is such a byte, takes the bytes up to it and yields their sum. */
  lemma {:induction false} ReadBase128Exactly(bs: seq<Byte>, max: nat)
    ensures var r := ReadBase128(bs, max);
            && (r.Read? <==> exists i :: 0 <= i < |bs| && i < max && bs[i] < 128)
            && (r.Read? ==> EndsAt(bs, max, r.used) && r.value == Sum(Low7(bs[..r.used]), 128))
  {
    if max > 0 && bs != [] {
      if bs[0] < 128 {
        EndsFirst(bs, max);
      } else {
        var rest := ReadBase128(bs[1..], max - 1);
        ReadBase128Exactly(bs[1..], max - 1);
        if i :| 0 <= i < |bs| && i < max && bs[i] < 128 { assert bs[1..][i - 1] == bs[i]; }
        if rest.Read? { EndsLater(bs, max, rest.used); }
      }
    }
  }

  lemma ReadsUpTo(bs: seq<Byte>, max: nat, n: nat)
    requires EndsAt(bs, max, n)
    ensures ReadBase128(bs, max) == Read(Sum(Low7(bs[..n]), 128), n)
  {
    ReadBase128Exactly(bs, max);
    assert bs[n - 1] < 128;
  }

  /** The readers of the parse loop: up to five bytes for tags and sizes, up to ten for values, and what they keep of
      the sum. */
  lemma ReadersExactly(bs: seq<Byte>)
    ensures var within := (max: nat) => exists i :: 0 <= i < |bs| && i < max && bs[i] < 128;
            && (ReadTag(bs).Read? <==> within(5)) && (ReadVarint32(bs).Read? <==> within(10))
            && (ReadVarint64(bs).Read? <==> within(10))
            && (ReadSize(bs).Read? ==> within(5))
    ensures forall n: nat :: EndsAt(bs, 5, n) ==> ReadTag(bs) == Read(Sum(Low7(bs[..n]), 128) % W32, n)
    ensures forall n: nat :: EndsAt(bs, 10, n) ==>
              && ReadVarint32(bs) == Read(Sum(Low7(bs[..n]), 128) % W32, n)
              && ReadVarint64(bs) == Read(Sum(Low7(bs[..n]), 128) % W64, n)
    ensures forall n: nat :: EndsAt(bs, 5, n) ==>
              ReadSize(bs) ==
              if Sum(Low7(bs[..n]), 128) <= MAX_SIZE then Read(Sum(Low7(bs[..n]), 128), n) else Malformed
  {
    ReadBase128Exactly(bs, 5);
    ReadBase128Exactly(bs, 10);
    forall n: nat | EndsAt(bs, 5, n) { ReadsUpTo(bs, 5, n); }
    forall n: nat | EndsAt(bs, 10, n) { ReadsUpTo(bs, 10, n); }
  }

  // ---- Words -----------------------------------------------------------------------------------------------

  lemma SumOfFour(bs: seq<Byte>)
    requires |bs| == 4
    ensures var d := Digits(bs);
            Sum(d, 0x100) == d[0] + 0x100 * d[1] + 0x1_0000 * d[2] + 0x100_0000 * d[3]
  {
    BytesTail(bs);
    BytesTail(bs[1..]);
    BytesTail(bs[2..]);
    BytesTail(bs[3..]);
    assert bs[1..][1..] == bs[2..] && bs[2..][1..] == bs[3..] && bs[3..][1..] == [];
  }

  lemma BytesTail(bs: seq<Byte>)
    requires bs != []
    ensures Sum(Digits(bs), 0x100) == bs[0] + 0x100 * Sum(Digits(bs[1..]), 0x100)
  {
    LowestDigit(Digits(bs), 0x100);
    assert Digits(bs)[1..] == Digits(bs[1..]);
  }

  lemma SumOfEight(bs: seq<Byte>)
    requires |bs| == 8
    ensures Sum(Digits(bs), 0x100) == Sum(Digits(bs[..4]), 0x100) + W32 * Sum(Digits(bs[4..]), 0x100)
  {
    SumOfFour(bs[..4]);
    BytesTail(bs);
    BytesTail(bs[1..]);
    BytesTail(bs[2..]);
    BytesTail(bs[3..]);
    assert bs[1..][1..] == bs[2..] && bs[2..][1..] == bs[3..] && bs[3..][1..] == bs[4..];
  }

  /** Words are little-endian: read and written. */
  lemma Fixed32Bytes(w: Word32)
    ensures Sum(Digits(Fixed32(w)), 0x100) == w
  {
    SumOfFour(Fixed32(w));
    WordFromBytes(w);
  }

  lemma ReadFixed32Exactly(bs: seq<Byte>)
    ensures ReadFixed32(bs) == if |bs| < 4 then Malformed else Read(Sum(Digits(bs[..4]), 0x100), 4)
  {
    if |bs| >= 4 { SumOfFour(bs[..4]); }
  }

  lemma Fixed64Bytes(w: Word64)
    ensures Sum(Digits(Fixed64(w)), 0x100) == w
  {
    SumOfEight(Fixed64(w));
    assert Fixed64(w)[..4] == Fixed32(w % W32) && Fixed64(w)[4..] == Fixed32(w / W32);
    Fixed32Bytes(w % W32);
    Fixed32Bytes(w / W32);
  }

  lemma ReadFixed64Exactly(bs: seq<Byte>)
    ensures ReadFixed64(bs) == if |bs| < 8 then Malformed else Read(Sum(Digits(bs[..8]), 0x100), 8)
  {
    if |bs| >= 8 {
      SumOfEight(bs[..8]);
      ReadFixed32Exactly(bs);
      ReadFixed32Exactly(bs[4..]);
      assert bs[..8][..4] == bs[..4] && bs[..8][4..] == bs[4..][..4];
    }
  }

  /** The packet header: two little-endian 16-bit words, the size first. */
  lemma HeaderBytes(bs: seq<Byte>)
    requires |bs| >= 4
    ensures Framing.HeaderSize(bs) == Sum(Digits(bs[..2]), 0x100)
    ensures Framing.HeaderId(bs) == Sum(Digits(bs[2..4]), 0x100)
  {
    SumOfTwo(bs[..2]);
    SumOfTwo(bs[2..4]);
  }

  lemma SumOfTwo(bs: seq<Byte>)
    requires |bs| == 2
    ensures Sum(Digits(bs), 0x100) == Digits(bs)[0] + 0x100 * Digits(bs)[1]
  {
    BytesTail(bs);
    BytesTail(bs[1..]);
    assert bs[1..][1..] == [];
  }

  // ---- Tags and signs --------------------------------------------------------------------------------------

  /** The values a field of this kind takes. */
  predicate Fits(kind: Kind, v: Value) {
    match kind
    case StringKind => v.Text?
    case MessageKind(_) => v.Sub?
    case _ => v.Scalar?
  }

  /** The tag bytes the generated parser of S2C_LOGIN_RESULT tests for. */
  const LOGIN_TAGS: seq<Byte> := [8, 16, 24, 34, 40, 48, 58]

  lemma FirstByte(r: Record, tag: Byte)
    requires Tag(r) == tag < 128
    ensures EncodeRecord(r)[0] == tag && Encode([r])[0] == tag
  {
    assert Varint(tag) == [tag];
    assert Encode([r]) == EncodeRecord(r) + Encode([]);
  }

  /** Every field that is written begins with the tag the generated parser tests for. */
  lemma GeneratedTags(i: nat, v: Value)
    requires !IsDefault(v)
    ensures i < |LOGIN_RESULT| && Fits(LOGIN_RESULT[i].kind, v) ==>
              Encode(FieldRecords(LOGIN_RESULT[i], v)) != [] &&
              Encode(FieldRecords(LOGIN_RESULT[i], v))[0] == LOGIN_TAGS[i]
    ensures i < |POS_INFO| && v.Scalar? ==>
              Encode(FieldRecords(POS_INFO[i], v)) != [] && Encode(FieldRecords(POS_INFO[i], v))[0] == 13 + 8 * i
  {
    if i < |LOGIN_RESULT| && Fits(LOGIN_RESULT[i].kind, v) {
      FirstByte(Record(LOGIN_RESULT[i].number, FieldPayload(LOGIN_RESULT[i].kind, v)), LOGIN_TAGS[i]);
    }
    if i < |POS_INFO| && v.Scalar? {
      FirstByte(Record(POS_INFO[i].number, FieldPayload(FloatKind, v)), 13 + 8 * i);
    }
  }

  /** The wire types that only unknown fields have: 64-bit words, and groups between two tags. */
  lemma OtherTags(w: Word64)
    ensures EncodeRecord(Record(1, Fixed64Field(w))) == [9] + Fixed64(w)
    ensures EncodeRecord(Record(1, GroupField([]))) == [11, 12]
  {
    assert Varint(9) == [9] && Varint(11) == [11] && Varint(12) == [12];
    assert Encode([]) == [];
  }

  lemma {:induction false} LongVarint(v: nat, n: nat)
    requires v >= Pow128(n)
    ensures |Varint(v)| > n
  {
    if n > 0 { LongVarint(v / 128, n - 1); }
  }

  /** Negative integers of either width take ten bytes: their sign is extended to 64 bits. */
  lemma NegativeTakesTen(kind: Kind, n: int)
    requires kind.Int32Kind? || kind.Int64Kind?
    requires -0x8000_0000_0000_0000 <= n < 0
    ensures FieldPayload(kind, Scalar(n)) == VarintField(n + W64) && |Varint(n + W64)| == 10
  {
    VarintWidths(n + W64);
    assert Pow128(4) == 0x1000_0000;
    assert Pow128(9) == 0x8000_0000_0000_0000 by {
      assert Pow128(9) == 0x8_0000_0000 * Pow128(4);
    }
    LongVarint(n + W64, 9);
  }
}
