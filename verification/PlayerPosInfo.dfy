/** The generated class PLAYER_POS_INFO, field by field. */
module PlayerPosInfo {
  import opened Basics
  import opened Wire
  import opened Message
  import opened MessageLaws
  import opened Protocol
  import opened Sizes

  /** `_impl_`: the twelve floats, as raw words. */
  datatype Impl = Impl(x: Word32, y: Word32, z: Word32, yaw: Word32, pitch: Word32, roll: Word32,
                       vx: Word32, vy: Word32, vz: Word32, ax: Word32, ay: Word32, az: Word32)

  const ZERO := Impl(0, 0, 0, 0, 0, 0, 0, 0, 0, 0, 0, 0)

  function Values(i: Impl): (values: seq<Value>)
    ensures |values| == 12
  {
    [Scalar(i.x), Scalar(i.y), Scalar(i.z), Scalar(i.yaw), Scalar(i.pitch), Scalar(i.roll),
     Scalar(i.vx), Scalar(i.vy), Scalar(i.vz), Scalar(i.ax), Scalar(i.ay), Scalar(i.az)]
  }

  class PosInfo {
    var impl: Impl
    var unknown: seq<Record>

    function Fields(): (m: Message)
      reads this
      ensures |m.values| == |POS_INFO|
    {
      Message(Values(impl), unknown)
    }

    constructor ()
      ensures Fields() == Default(POS_INFO)
    {
      impl, unknown := ZERO, [];
      new;
      ZeroIsDefault();
    }

    /** A message object with the given contents. */
    constructor From(impl: Impl, unknown: seq<Record>)
      ensures this.impl == impl && this.unknown == unknown
    {
      this.impl, this.unknown := impl, unknown;
    }

    /** `_impl_.x_ = UnalignedLoad<float>(ptr)`, and so on by field number. */
    method SetFloat(number: nat, w: Word32)
      requires 1 <= number <= 12
      modifies this`impl
      ensures Values(impl) == Values(old(impl))[number - 1 := Scalar(w)]
    {
      match number {
        case 1 => impl := impl.(x := w);
        case 2 => impl := impl.(y := w);
        case 3 => impl := impl.(z := w);
        case 4 => impl := impl.(yaw := w);
        case 5 => impl := impl.(pitch := w);
        case 6 => impl := impl.(roll := w);
        case 7 => impl := impl.(vx := w);
        case 8 => impl := impl.(vy := w);
        case 9 => impl := impl.(vz := w);
        case 10 => impl := impl.(ax := w);
        case 11 => impl := impl.(ay := w);
        case _ => impl := impl.(az := w);
      }
    }

    /** The switch of the parse loop: field number, then the exact low byte of the tag. */
    method ParseField(tag: Word32, bs: seq<Byte>, depth: nat) returns (used: Option<nat>)
      requires !EndsLoop(tag)
      modifies this
      ensures match FieldStep(POS_INFO, old(Fields()), tag, bs, depth)
              case Malformed => used == None
              case Read(m, n) => used == Some(n) && Fields() == m
    {
      FloatStep(Fields(), tag, bs, depth);
      if IsFloatTag(tag) {
        var w := ReadFixed32(bs);
        if w.Malformed? { return None; }
        SetFloat(tag / 8, w.value);
        return Some(w.used);
      }
      var p := DecodePayload(tag, bs, depth);
      if p.Malformed? { return None; }
      unknown := unknown + [Record(tag / 8, p.value)];
      return Some(p.used);
    }

    /** One turn of the parse loop leaves the same parse to be finished. */
    method ParseNext(bs: seq<Byte>, depth: nat) returns (used: Option<nat>)
      requires bs != []
      modifies this
      ensures used.None? ==> ParseInto(POS_INFO, old(Fields()), bs, depth) == None
      ensures used.Some? ==> 0 < used.value <= |bs|
      ensures used.Some? ==>
                ParseInto(POS_INFO, old(Fields()), bs, depth) == ParseInto(POS_INFO, Fields(), bs[used.value..], depth)
    {
      ParseTurn(POS_INFO, Fields(), bs, depth);
      var tag := ReadTag(bs);
      if tag.Malformed? || EndsLoop(tag.value) { return None; }
      used := ParseField(tag.value, bs[tag.used..], depth);
      if used.Some? { used := Some(tag.used + used.value); }
    }

    method InternalParse(bs: seq<Byte>, depth: nat) returns (ok: bool)
      modifies this
      ensures var m := ParseInto(POS_INFO, old(Fields()), bs, depth);
              ok == m.Some? && (ok ==> Fields() == m.value)
    {
      ghost var goal := ParseInto(POS_INFO, Fields(), bs, depth);
      var ptr := 0;
      while ptr < |bs|
        invariant 0 <= ptr <= |bs|
        invariant ParseInto(POS_INFO, Fields(), bs[ptr..], depth) == goal
      {
        var used := ParseNext(bs[ptr..], depth);
        if used.None? { return false; }
        assert bs[ptr..][used.value..] == bs[ptr + used.value..];
        ptr := ptr + used.value;
      }
      return true;
    }

    method InternalSerialize() returns (target: seq<Byte>)
      ensures target == Serialize(POS_INFO, Fields())
    {
      target := WriteFloats(impl);
      EncodeAppend(RecordsFrom(POS_INFO, Values(impl), 0), unknown);
      target := target + Encode(unknown);
    }

    method ByteSizeLong() returns (total: nat)
      ensures forall depth: nat :: GoodMessage(POS_INFO, Fields(), depth) ==> total == |Serialize(POS_INFO, Fields())|
    {
      total := Bytes(impl.x) + Bytes(impl.y) + Bytes(impl.z);
      total := total + Bytes(impl.yaw) + Bytes(impl.pitch) + Bytes(impl.roll);
      total := total + Bytes(impl.vx) + Bytes(impl.vy) + Bytes(impl.vz);
      total := total + Bytes(impl.ax) + Bytes(impl.ay) + Bytes(impl.az);
      SumOfFloats(impl);
      SchemasAreGood();
      total := total + UnknownSize(unknown);
      forall depth: nat | GoodMessage(POS_INFO, Fields(), depth)
        ensures total == |Serialize(POS_INFO, Fields())|
      {
        SizeIsExact(POS_INFO, Fields(), depth);
      }
    }

    /** MergeImpl: `from` is a different message. */
    method MergeFrom(from: PosInfo)
      requires from != this
      modifies this
      ensures Fields() == Merge(POS_INFO, old(Fields()), from.Fields())
    {
      MergeOfFloats(Fields(), impl, from.Fields(), from.impl);
      impl := Impl(
        Set(impl.x, from.impl.x), Set(impl.y, from.impl.y), Set(impl.z, from.impl.z),
        Set(impl.yaw, from.impl.yaw), Set(impl.pitch, from.impl.pitch), Set(impl.roll, from.impl.roll),
        Set(impl.vx, from.impl.vx), Set(impl.vy, from.impl.vy), Set(impl.vz, from.impl.vz),
        Set(impl.ax, from.impl.ax), Set(impl.ay, from.impl.ay), Set(impl.az, from.impl.az));
      unknown := unknown + from.unknown;
    }

    method Clear()
      modifies this
      ensures Fields() == Default(POS_INFO)
    {
      impl, unknown := ZERO, [];
      ZeroIsDefault();
    }

    method CopyFrom(from: PosInfo)
      modifies this
      ensures Fields() == old(from.Fields())
    {
      if from == this { return; }
      Clear();
      MergeFrom(from);
      OverlayOfDefault(from.Fields(), from.impl);
    }
  }

  // ---- The same statements for each of the twelve floats ----------------------------------------

  /** `tag >> 3` is a float's number and the low byte is its exact tag. */
  predicate IsFloatTag(tag: Word32) {
    1 <= tag / 8 <= 12 && tag % 0x100 == tag / 8 * 8 + 5
  }

  lemma FloatStep(m: Message, tag: Word32, bs: seq<Byte>, depth: nat)
    requires |m.values| == 12 && !EndsLoop(tag)
    ensures IsFloatTag(tag) ==>
              FieldStep(POS_INFO, m, tag, bs, depth) ==
              match ReadFixed32(bs)
              case Malformed => Malformed
              case Read(w, n) => Read(m.(values := m.values[tag / 8 - 1 := Scalar(w)]), n)
    ensures !IsFloatTag(tag) ==>
              FieldStep(POS_INFO, m, tag, bs, depth) ==
              match DecodePayload(tag, bs, depth)
              case Malformed => Malformed
              case Read(p, n) => Read(m.(unknown := m.unknown + [Record(tag / 8, p)]), n)
  {
    SchemasAreGood();
    StepHits(POS_INFO, m, tag, bs, depth);
  }

  /** `if (raw != 0) total_size += 1 + 4` */
  function Bytes(raw: Word32): nat { if raw != 0 then 1 + 4 else 0 }

  /** `if (raw != 0) set(raw)` */
  function Set(field: Word32, raw: Word32): Word32 { if raw != 0 then raw else field }

  method WriteFloats(i: Impl) returns (target: seq<Byte>)
    ensures target == Encode(RecordsFrom(POS_INFO, Values(i), 0))
  {
    ghost var values := Values(i);
    ghost var total := Unwritten(POS_INFO, values, 0);
    target := WriteThree(0, i.x, i.y, i.z, [], values, total);
    target := WriteThree(3, i.yaw, i.pitch, i.roll, target, values, total);
    target := WriteThree(6, i.vx, i.vy, i.vz, target, values, total);
    target := WriteThree(9, i.ax, i.ay, i.az, target, values, total);
  }

  method WriteThree(i: nat, a: Word32, b: Word32, c: Word32, written: seq<Byte>,
                    ghost values: seq<Value>, ghost total: seq<Byte>)
    returns (target: seq<Byte>)
    requires i + 3 <= 12 == |values|
    requires values[i] == Scalar(a) && values[i + 1] == Scalar(b) && values[i + 2] == Scalar(c)
    requires written + Unwritten(POS_INFO, values, i) == total
    ensures target + Unwritten(POS_INFO, values, i + 3) == total
  {
    target := WriteField(POS_INFO[i], Scalar(a), written, POS_INFO, values, i, total);
    target := WriteField(POS_INFO[i + 1], Scalar(b), target, POS_INFO, values, i + 1, total);
    target := WriteField(POS_INFO[i + 2], Scalar(c), target, POS_INFO, values, i + 2, total);
  }

  lemma ZeroIsDefault()
    ensures Message(Values(ZERO), []) == Default(POS_INFO)
  {
    assert Values(ZERO) == Default(POS_INFO).values;
  }

  lemma SumOfFloats(i: Impl)
    ensures FieldSizesFrom(POS_INFO, Values(i), 0) ==
            Bytes(i.x) + Bytes(i.y) + Bytes(i.z) + Bytes(i.yaw) + Bytes(i.pitch) + Bytes(i.roll) +
            Bytes(i.vx) + Bytes(i.vy) + Bytes(i.vz) + Bytes(i.ax) + Bytes(i.ay) + Bytes(i.az)
  {
    SixSizes(Values(i), 0, i.x, i.y, i.z, i.yaw, i.pitch, i.roll);
    SixSizes(Values(i), 6, i.vx, i.vy, i.vz, i.ax, i.ay, i.az);
  }

  lemma SixSizes(v: seq<Value>, i: nat, a: Word32, b: Word32, c: Word32, d: Word32, e: Word32, f: Word32)
    requires i + 6 <= 12 == |v| && v[i] == Scalar(a) && v[i + 1] == Scalar(b) && v[i + 2] == Scalar(c)
    requires v[i + 3] == Scalar(d) && v[i + 4] == Scalar(e) && v[i + 5] == Scalar(f)
    ensures FieldSizesFrom(POS_INFO, v, i) ==
            Bytes(a) + Bytes(b) + Bytes(c) + Bytes(d) + Bytes(e) + Bytes(f) +
            if i + 6 < 12 then FieldSizesFrom(POS_INFO, v, i + 6) else 0
  {
    ThreeSizes(v, i, a, b, c);
    ThreeSizes(v, i + 3, d, e, f);
  }

  lemma ThreeSizes(v: seq<Value>, i: nat, a: Word32, b: Word32, c: Word32)
    requires i + 3 <= 12 == |v| && v[i] == Scalar(a) && v[i + 1] == Scalar(b) && v[i + 2] == Scalar(c)
    ensures FieldSizesFrom(POS_INFO, v, i) == Bytes(a) + Bytes(b) + Bytes(c) + FieldSizesFrom(POS_INFO, v, i + 3)
  {
    assert FieldSizesFrom(POS_INFO, v, i + 1) == Bytes(b) + FieldSizesFrom(POS_INFO, v, i + 2);
  }

  lemma MergeOfFloats(a: Message, i: Impl, b: Message, j: Impl)
    requires a.values == Values(i) && b.values == Values(j)
    ensures Merge(POS_INFO, a, b).values == Values(Impl(
              Set(i.x, j.x), Set(i.y, j.y), Set(i.z, j.z),
              Set(i.yaw, j.yaw), Set(i.pitch, j.pitch), Set(i.roll, j.roll),
              Set(i.vx, j.vx), Set(i.vy, j.vy), Set(i.vz, j.vz), Set(i.ax, j.ax), Set(i.ay, j.ay), Set(i.az, j.az)))
  {
    MergedFloat(a, b, 0, i.x, j.x);
    MergedFloat(a, b, 1, i.y, j.y);
    MergedFloat(a, b, 2, i.z, j.z);
    MergedFloat(a, b, 3, i.yaw, j.yaw);
    MergedFloat(a, b, 4, i.pitch, j.pitch);
    MergedFloat(a, b, 5, i.roll, j.roll);
    MergedFloat(a, b, 6, i.vx, j.vx);
    MergedFloat(a, b, 7, i.vy, j.vy);
    MergedFloat(a, b, 8, i.vz, j.vz);
    MergedFloat(a, b, 9, i.ax, j.ax);
    MergedFloat(a, b, 10, i.ay, j.ay);
    MergedFloat(a, b, 11, i.az, j.az);
  }

  lemma MergedFloat(a: Message, b: Message, k: nat, f: Word32, raw: Word32)
    requires |a.values| == |b.values| == 12 && k < 12 && a.values[k] == Scalar(f) && b.values[k] == Scalar(raw)
    ensures Merge(POS_INFO, a, b).values[k] == Scalar(Set(f, raw))
  {
    MergeAt(POS_INFO, a, b, k);
  }

  lemma OverlayOfDefault(b: Message, j: Impl)
    requires b.values == Values(j)
    ensures Merge(POS_INFO, Default(POS_INFO), b) == b
  {
    ZeroIsDefault();
    MergeOfFloats(Default(POS_INFO), ZERO, b, j);
    assert [] + b.unknown == b.unknown;
  }
}
