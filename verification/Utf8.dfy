/** Well-formed UTF-8, as sections 3 and 4 of RFC 3629 define it. */
module Utf8 {
  import opened Wire

  /** Unicode scalar values: everything up to 0x10FFFF but the surrogates. */
  predicate IsScalar(c: int) {
    0 <= c < 0xD800 || 0xE000 <= c <= 0x10FFFF
  }

  predicate Tail(bs: seq<Byte>, i: nat) {
    i < |bs| && 0x80 <= bs[i] <= 0xBF
  }

  predicate Between(bs: seq<Byte>, i: nat, lo: nat, hi: nat) {
    i < |bs| && lo <= bs[i] <= hi
  }

  /** Bytes taken by the first character, or 0 when they form none (the grammar of section 4). */
  function Width(bs: seq<Byte>): (n: nat)
    ensures n <= |bs|
  {
    if bs == [] then 0
    else if bs[0] < 0x80 then 1
    else if 0xC2 <= bs[0] <= 0xDF && Tail(bs, 1) then 2
    else if bs[0] == 0xE0 && Between(bs, 1, 0xA0, 0xBF) && Tail(bs, 2) then 3
    else if (0xE1 <= bs[0] <= 0xEC || 0xEE <= bs[0] <= 0xEF) && Tail(bs, 1) && Tail(bs, 2) then 3
    else if bs[0] == 0xED && Between(bs, 1, 0x80, 0x9F) && Tail(bs, 2) then 3
    else if bs[0] == 0xF0 && Between(bs, 1, 0x90, 0xBF) && Tail(bs, 2) && Tail(bs, 3) then 4
    else if 0xF1 <= bs[0] <= 0xF3 && Tail(bs, 1) && Tail(bs, 2) && Tail(bs, 3) then 4
    else if bs[0] == 0xF4 && Between(bs, 1, 0x80, 0x8F) && Tail(bs, 2) && Tail(bs, 3) then 4
    else 0
  }

  predicate Valid(bs: seq<Byte>) {
    bs == [] || (Width(bs) > 0 && Valid(bs[Width(bs)..]))
  }

  /** The encoding table of section 3. */
  function EncodeScalar(c: int): seq<Byte>
    requires IsScalar(c)
  {
    if c < 0x80 then [c]
    else if c < 0x800 then [0xC0 + c / 64, 0x80 + c % 64]
    else if c < 0x1_0000 then [0xE0 + c / 4096, 0x80 + c / 64 % 64, 0x80 + c % 64]
    else [0xF0 + c / 26_2144, 0x80 + c / 4096 % 64, 0x80 + c / 64 % 64, 0x80 + c % 64]
  }

  function Encode(cs: seq<int>): seq<Byte>
    requires forall c <- cs :: IsScalar(c)
  {
    if cs == [] then [] else EncodeScalar(cs[0]) + Encode(cs[1..])
  }

  /** The payload of byte `i` once its lead or tail marker is taken off. */
  function Bits(bs: seq<Byte>, i: nat, marker: nat): int
    requires i < |bs|
  {
    bs[i] - marker
  }

  /** The character the first `Width(bs)` bytes stand for. */
  function DecodeScalar(bs: seq<Byte>): int
    requires Width(bs) > 0
  {
    match Width(bs)
    case 1 => bs[0]
    case 2 => Bits(bs, 0, 0xC0) * 64 + Bits(bs, 1, 0x80)
    case 3 => Bits(bs, 0, 0xE0) * 4096 + Bits(bs, 1, 0x80) * 64 + Bits(bs, 2, 0x80)
    case _ => Bits(bs, 0, 0xF0) * 26_2144 + Bits(bs, 1, 0x80) * 4096 + Bits(bs, 2, 0x80) * 64 + Bits(bs, 3, 0x80)
  }

  lemma ThreeBytes(bs: seq<Byte>)
    requires Width(bs) == 3
    ensures IsScalar(DecodeScalar(bs)) && EncodeScalar(DecodeScalar(bs)) == bs[..3]
  {
    var c := DecodeScalar(bs);
    assert 0x800 <= c < 0x1_0000 && IsScalar(c);
    assert c / 64 == Bits(bs, 0, 0xE0) * 64 + Bits(bs, 1, 0x80);
  }

  lemma FourBytes(bs: seq<Byte>)
    requires Width(bs) == 4
    ensures IsScalar(DecodeScalar(bs)) && EncodeScalar(DecodeScalar(bs)) == bs[..4]
  {
    var c := DecodeScalar(bs);
    assert 0x1_0000 <= c <= 0x10FFFF;
    assert c / 64 == Bits(bs, 0, 0xF0) * 4096 + Bits(bs, 1, 0x80) * 64 + Bits(bs, 2, 0x80);
    assert c / 4096 == Bits(bs, 0, 0xF0) * 64 + Bits(bs, 1, 0x80);
  }

  lemma ScalarFromBytes(bs: seq<Byte>)
    requires Width(bs) > 0
    ensures IsScalar(DecodeScalar(bs)) && EncodeScalar(DecodeScalar(bs)) == bs[..Width(bs)]
  {
    match Width(bs)
    case 3 => ThreeBytes(bs);
    case 4 => FourBytes(bs);
    case _ =>
  }

  lemma BytesFromScalar(c: int, tail: seq<Byte>)
    requires IsScalar(c)
    ensures Width(EncodeScalar(c) + tail) == |EncodeScalar(c)|
  {
  }

  lemma {:induction false} DecodeAll(bs: seq<Byte>) returns (cs: seq<int>)
    requires Valid(bs)
    ensures (forall c <- cs :: IsScalar(c)) && Encode(cs) == bs
  {
    if bs == [] {
      cs := [];
    } else {
      var n := Width(bs);
      var rest := DecodeAll(bs[n..]);
      ScalarFromBytes(bs);
      cs := [DecodeScalar(bs)] + rest;
      assert cs[1..] == rest && bs == bs[..n] + bs[n..];
    }
  }

  lemma {:induction false} EncodedIsValid(cs: seq<int>)
    requires forall c <- cs :: IsScalar(c)
    ensures Valid(Encode(cs))
  {
    if cs != [] {
      var first := EncodeScalar(cs[0]);
      BytesFromScalar(cs[0], Encode(cs[1..]));
      EncodedIsValid(cs[1..]);
      assert Encode(cs)[|first|..] == Encode(cs[1..]);
    }
  }

  ghost predicate EncodesScalars(bs: seq<Byte>) {
    exists cs: seq<int> :: (forall c <- cs :: IsScalar(c)) && Encode(cs) == bs
  }

  /** The byte grammar accepts exactly the encodings of scalar-value sequences. */
  lemma ValidIsEncoded(bs: seq<Byte>)
    ensures Valid(bs) <==> EncodesScalars(bs)
  {
    if Valid(bs) {
      var cs := DecodeAll(bs);
    }
    if EncodesScalars(bs) {
      var cs: seq<int> :| (forall c <- cs :: IsScalar(c)) && Encode(cs) == bs;
      EncodedIsValid(cs);
    }
  }
}
