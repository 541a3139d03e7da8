/** Parts shared by the generated message classes: scalar fields and the position submessage. */
module MessageParts {
  import opened Basics
  import opened Wire
  import opened Message
  import opened MessageLaws
  import opened Protocol
  import opened PlayerPosInfo

  type Int32 = n: int | -0x8000_0000 <= n < 0x8000_0000
  type Int64 = n: int | -0x8000_0000_0000_0000 <= n < 0x8000_0000_0000_0000

  /** The contents of a PLAYER_POS_INFO owned by another message. */
  datatype Pos = Pos(impl: Impl, unknown: seq<Record>)

  function PosMessage(p: Pos): (m: Message)
    ensures |m.values| == 12
  {
    Message(PlayerPosInfo.Values(p.impl), p.unknown)
  }

  function BoolValue(b: bool): Value { Scalar(if b then 1 else 0) }

  function SubValue(p: Option<Pos>): Value {
    match p
    case None => Sub(None)
    case Some(pos) => Sub(Some(PosMessage(pos)))
  }

  /** Assigning an unsigned word to a signed 32-bit field. */
  function Signed32(w: Word32): Int32 {
    if w < 0x8000_0000 then w else w - W32
  }

  /** The 32-bit reader sees the low half of what the 64-bit reader sees. */
  lemma LowBits(bs: seq<Byte>)
    ensures ReadVarint32(bs) ==
            match ReadVarint64(bs) case Malformed => Malformed case Read(v, n) => Read(v % W32, n)
  {
    var r := ReadBase128(bs, 10);
    if r.Read? { LowHalf(r.value); }
  }

  lemma LowHalf(v: nat)
    ensures v % W64 % W32 == v % W32
  {
    var k, r := v / W64, v % W64;
    assert v == W32 * (W32 * k) + r;
    assert (W32 * (W32 * k) + r) % W32 == r % W32;
  }

  /** `_internal_mutable_pos_info()`: the present object, or a new one. */
  method MutablePos(p: Option<Pos>) returns (pos: PosInfo)
    ensures fresh(pos) && pos.Fields() == Current(POS_INFO, SubValue(p))
  {
    if p.None? {
      pos := new PosInfo();
    } else {
      pos := new PosInfo.From(p.value.impl, p.value.unknown);
    }
  }

  /** `ctx->ParseMessage(_internal_mutable_pos_info(), ptr)` */
  method ParseMessage(p: Option<Pos>, bs: seq<Byte>, depth: nat) returns (r: Read<Pos>)
    ensures match ReadBytes(bs)
            case Malformed => r == Malformed
            case Read(body, n) =>
              if depth == 0 then r == Malformed
              else match ParseInto(POS_INFO, Current(POS_INFO, SubValue(p)), body, depth - 1)
                case None => r == Malformed
                case Some(sub) => r.Read? && r.used == n && PosMessage(r.value) == sub
  {
    var body := ReadBytes(bs);
    if body.Malformed? || depth == 0 { return Malformed; }
    var pos := MutablePos(p);
    var ok := pos.InternalParse(body.value, depth - 1);
    if !ok { return Malformed; }
    return Read(Pos(pos.impl, pos.unknown), body.used);
  }

  /** `MessageSize(*pos_info_)` without the length prefix. */
  method MessageSize(p: Pos) returns (size: nat)
    ensures forall depth: nat :: GoodMessage(POS_INFO, PosMessage(p), depth) ==>
              size == |Serialize(POS_INFO, PosMessage(p))|
  {
    var pos := new PosInfo.From(p.impl, p.unknown);
    size := pos.ByteSizeLong();
    assert pos.Fields() == PosMessage(p);
  }

  /** `_internal_mutable_pos_info()->MergeFrom(from.pos_info())` */
  method MergePos(p: Option<Pos>, from: Pos) returns (merged: Pos)
    ensures PosMessage(merged) == Merge(POS_INFO, Current(POS_INFO, SubValue(p)), PosMessage(from))
  {
    var pos := MutablePos(p);
    var source := new PosInfo.From(from.impl, from.unknown);
    pos.MergeFrom(source);
    merged := Pos(pos.impl, pos.unknown);
  }
}
