/** The generated class S2C_LOGIN_RESULT, field by field. */
module LoginResult {
  import opened Basics
  import opened Wire
  import opened Message
  import opened MessageLaws
  import opened Protocol
  import opened Sizes
  import opened MessageParts
  import PlayerPosInfo
  import Utf8

  /** `_impl_` */
  datatype Fields = Fields(sessionId: Int32, result: bool, playerType: Int32, playerStrId: seq<Byte>,
                           timeStamp: Int64, loginTime: Int32, posInfo: Option<Pos>)

  const CLEARED := Fields(0, false, 0, [], 0, 0, None)

  function Values(f: Fields): (values: seq<Value>)
    ensures |values| == 7
  {
    [Scalar(f.sessionId), BoolValue(f.result), Scalar(f.playerType), Text(f.playerStrId),
     Scalar(f.timeStamp), Scalar(f.loginTime), SubValue(f.posInfo)]
  }

  /** A turn of the parse loop did what the schema asks for; a failed turn leaves the message unspecified. */
  predicate Performed(step: Read<Message>, used: Option<nat>, now: Message) {
    match step
    case Malformed => used == None
    case Read(m, n) => used == Some(n) && now == m
  }

  class Packet {
    var impl: Fields
    var unknown: seq<Record>

    function View(): (m: Message)
      reads this
      ensures |m.values| == |LOGIN_RESULT|
    {
      Message(Values(impl), unknown)
    }

    constructor ()
      ensures View() == Default(LOGIN_RESULT)
    {
      impl, unknown := CLEARED, [];
      new;
      assert View().values == Default(LOGIN_RESULT).values;
    }

    /** The switch of the parse loop: field number, then the exact low byte of the tag. */
    method ParseField(tag: Word32, bs: seq<Byte>, depth: nat) returns (used: Option<nat>)
      requires !EndsLoop(tag)
      modifies this
      ensures Performed(FieldStep(LOGIN_RESULT, old(View()), tag, bs, depth), used, View())
    {
      var number, low := tag / 8, tag % 0x100;
      if number in {1, 3, 6} && low == number * 8 {
        used := ParseInt32(number, tag, bs, depth);
      } else if number == 2 && low == 16 {
        used := ParseResult(tag, bs, depth);
      } else if number == 4 && low == 34 {
        used := ParseStrId(tag, bs, depth);
      } else if number == 5 && low == 40 {
        used := ParseTimeStamp(tag, bs, depth);
      } else if number == 7 && low == 58 {
        used := ParsePosInfo(tag, bs, depth);
      } else {
        SchemasAreGood();
        UnusualStep(LOGIN_RESULT, View(), tag, bs, depth);
        var p := DecodePayload(tag, bs, depth);
        if p.Malformed? { return None; }
        unknown := unknown + [Record(number, p.value)];
        used := Some(p.used);
      }
    }

    /** session_id, player_type and login_time */
    method ParseInt32(number: nat, tag: Word32, bs: seq<Byte>, depth: nat) returns (used: Option<nat>)
      requires number in {1, 3, 6} && tag / 8 == number && tag % 8 == 0
      modifies this
      ensures Performed(FieldStep(LOGIN_RESULT, old(View()), tag, bs, depth), used, View())
    {
      SchemasAreGood();
      VarintStep(LOGIN_RESULT, View(), tag, bs, depth);
      LowBits(bs);
      var v := ReadVarint32(bs);
      if v.Malformed? { return None; }
      ghost var before := Values(impl);
      match number {
        case 1 => impl := impl.(sessionId := Signed32(v.value));
        case 3 => impl := impl.(playerType := Signed32(v.value));
        case _ => impl := impl.(loginTime := Signed32(v.value));
      }
      assert Values(impl) == before[number - 1 := Scalar(Signed32(v.value))];
      used := Some(v.used);
    }

    method ParseResult(tag: Word32, bs: seq<Byte>, depth: nat) returns (used: Option<nat>)
      requires tag / 8 == 2 && tag % 8 == 0
      modifies this
      ensures Performed(FieldStep(LOGIN_RESULT, old(View()), tag, bs, depth), used, View())
    {
      SchemasAreGood();
      VarintStep(LOGIN_RESULT, View(), tag, bs, depth);
      var v := ReadVarint64(bs);
      if v.Malformed? { return None; }
      ghost var before := Values(impl);
      impl := impl.(result := v.value != 0);
      assert Values(impl) == before[1 := BoolValue(impl.result)];
      used := Some(v.used);
    }

    method ParseStrId(tag: Word32, bs: seq<Byte>, depth: nat) returns (used: Option<nat>)
      requires tag / 8 == 4 && tag % 8 == 2
      modifies this
      ensures Performed(FieldStep(LOGIN_RESULT, old(View()), tag, bs, depth), used, View())
    {
      SchemasAreGood();
      TextStep(LOGIN_RESULT, View(), tag, bs, depth);
      var text := ReadBytes(bs);
      if text.Malformed? || !Utf8.Valid(text.value) { return None; }
      ghost var before := Values(impl);
      impl := impl.(playerStrId := text.value);
      assert Values(impl) == before[3 := Text(text.value)];
      used := Some(text.used);
    }

    method ParseTimeStamp(tag: Word32, bs: seq<Byte>, depth: nat) returns (used: Option<nat>)
      requires tag / 8 == 5 && tag % 8 == 0
      modifies this
      ensures Performed(FieldStep(LOGIN_RESULT, old(View()), tag, bs, depth), used, View())
    {
      SchemasAreGood();
      VarintStep(LOGIN_RESULT, View(), tag, bs, depth);
      var v := ReadVarint64(bs);
      if v.Malformed? { return None; }
      ghost var before := Values(impl);
      impl := impl.(timeStamp := ToInt64(v.value));
      assert Values(impl) == before[4 := Scalar(impl.timeStamp)];
      used := Some(v.used);
    }

    method ParsePosInfo(tag: Word32, bs: seq<Byte>, depth: nat) returns (used: Option<nat>)
      requires tag / 8 == 7 && tag % 8 == 2
      modifies this
      ensures Performed(FieldStep(LOGIN_RESULT, old(View()), tag, bs, depth), used, View())
    {
      SchemasAreGood();
      SubStep(LOGIN_RESULT, View(), tag, bs, depth);
      var sub := ParseMessage(impl.posInfo, bs, depth);
      if sub.Malformed? { return None; }
      ghost var before := Values(impl);
      impl := impl.(posInfo := Some(sub.value));
      assert Values(impl) == before[6 := SubValue(impl.posInfo)];
      used := Some(sub.used);
    }

    /** One turn of the parse loop leaves the same parse to be finished. */
    method ParseNext(bs: seq<Byte>, depth: nat) returns (used: Option<nat>)
      requires bs != []
      modifies this
      ensures used.None? ==> ParseInto(LOGIN_RESULT, old(View()), bs, depth) == None
      ensures used.Some? ==> 0 < used.value <= |bs|
      ensures used.Some? ==>
                ParseInto(LOGIN_RESULT, old(View()), bs, depth) ==
                ParseInto(LOGIN_RESULT, View(), bs[used.value..], depth)
    {
      ParseTurn(LOGIN_RESULT, View(), bs, depth);
      var tag := ReadTag(bs);
      if tag.Malformed? || EndsLoop(tag.value) { return None; }
      used := ParseField(tag.value, bs[tag.used..], depth);
      if used.Some? { used := Some(tag.used + used.value); }
    }

    method InternalParse(bs: seq<Byte>, depth: nat) returns (ok: bool)
      modifies this
      ensures var m := ParseInto(LOGIN_RESULT, old(View()), bs, depth);
              ok == m.Some? && (ok ==> View() == m.value)
    {
      ghost var goal := ParseInto(LOGIN_RESULT, View(), bs, depth);
      var ptr := 0;
      while ptr < |bs|
        invariant 0 <= ptr <= |bs|
        invariant ParseInto(LOGIN_RESULT, View(), bs[ptr..], depth) == goal
      {
        var used := ParseNext(bs[ptr..], depth);
        if used.None? { return false; }
        assert bs[ptr..][used.value..] == bs[ptr + used.value..];
        ptr := ptr + used.value;
      }
      return true;
    }

    method InternalSerialize() returns (target: seq<Byte>)
      ensures target == Serialize(LOGIN_RESULT, View())
    {
      ghost var values := Values(impl);
      ghost var total := Unwritten(LOGIN_RESULT, values, 0);
      target := WriteScalars(impl, values, total);
      target := WriteRest(impl, target, values, total);
      EncodeAppend(RecordsFrom(LOGIN_RESULT, values, 0), unknown);
      target := target + Encode(unknown);
    }

    /** The fields are visited in the order of their storage, not of their numbers. */
    method ByteSizeLong() returns (total: nat)
      ensures forall depth: nat :: GoodMessage(LOGIN_RESULT, View(), depth) ==>
                total == |Serialize(LOGIN_RESULT, View())|
    {
      var posSize := 0;
      if impl.posInfo.Some? { posSize := MessageSize(impl.posInfo.value); }
      total := 0;
      if impl.playerStrId != [] { total := total + 1 + LengthDelimitedSize(|impl.playerStrId|); }
      if impl.posInfo.Some? { total := total + 1 + LengthDelimitedSize(posSize); }
      total := total + VarintFieldSize(impl.sessionId);
      if impl.result { total := total + 1 + 1; }
      total := total + VarintFieldSize(impl.playerType);
      total := total + VarintFieldSize(impl.loginTime);
      total := total + VarintFieldSize(impl.timeStamp);
      total := total + UnknownSize(unknown);
      StorageSizeIsExact(impl, unknown, posSize);
    }

    /** MergeImpl: `from` is a different message. */
    method MergeFrom(from: Packet)
      requires from != this
      modifies this
      ensures View() == Merge(LOGIN_RESULT, old(View()), from.View())
    {
      MergeOfFields(View(), impl, from.View(), from.impl);
      var to := MergeFields(impl, from.impl);
      impl, unknown := to, unknown + from.unknown;
    }

    method Clear()
      modifies this
      ensures View() == Default(LOGIN_RESULT)
    {
      impl, unknown := CLEARED, [];
      assert View().values == Default(LOGIN_RESULT).values;
    }

    method CopyFrom(from: Packet)
      modifies this
      ensures View() == old(from.View())
    {
      if from == this { return; }
      Clear();
      MergeFrom(from);
      OverlayOfDefault(from.View(), from.impl);
    }
  }

  // ---- Serialization and size, part by part ------------------------------------------------------

  method WriteScalars(f: Fields, ghost values: seq<Value>, ghost total: seq<Byte>) returns (target: seq<Byte>)
    requires |values| == 7 && total == Unwritten(LOGIN_RESULT, values, 0)
    requires values[0] == Scalar(f.sessionId) && values[1] == BoolValue(f.result) && values[2] == Scalar(f.playerType)
    ensures target + Unwritten(LOGIN_RESULT, values, 3) == total
  {
    target := WriteField(LOGIN_RESULT[0], Scalar(f.sessionId), [], LOGIN_RESULT, values, 0, total);
    target := WriteField(LOGIN_RESULT[1], BoolValue(f.result), target, LOGIN_RESULT, values, 1, total);
    target := WriteField(LOGIN_RESULT[2], Scalar(f.playerType), target, LOGIN_RESULT, values, 2, total);
  }

  method WriteRest(f: Fields, written: seq<Byte>, ghost values: seq<Value>, ghost total: seq<Byte>)
    returns (target: seq<Byte>)
    requires |values| == 7 && written + Unwritten(LOGIN_RESULT, values, 3) == total
    requires values[3] == Text(f.playerStrId) && values[4] == Scalar(f.timeStamp)
    requires values[5] == Scalar(f.loginTime) && values[6] == SubValue(f.posInfo)
    ensures target == total
  {
    target := WriteField(LOGIN_RESULT[3], Text(f.playerStrId), written, LOGIN_RESULT, values, 3, total);
    target := WriteField(LOGIN_RESULT[4], Scalar(f.timeStamp), target, LOGIN_RESULT, values, 4, total);
    target := WriteField(LOGIN_RESULT[5], Scalar(f.loginTime), target, LOGIN_RESULT, values, 5, total);
    target := WriteField(LOGIN_RESULT[6], SubValue(f.posInfo), target, LOGIN_RESULT, values, 6, total);
    assert Unwritten(LOGIN_RESULT, values, 7) == [];
  }

  /** `if (field != 0) total_size += ...SizePlusOne(field)` */
  function VarintFieldSize(n: int): nat { if n != 0 then 1 + VarintSize(n % W64) else 0 }

  function SizeByStorage(f: Fields, posSize: nat): nat {
    (if f.playerStrId != [] then 1 + LengthDelimitedSize(|f.playerStrId|) else 0) +
    (if f.posInfo.Some? then 1 + LengthDelimitedSize(posSize) else 0) +
    VarintFieldSize(f.sessionId) +
    (if f.result then 1 + 1 else 0) +
    VarintFieldSize(f.playerType) +
    VarintFieldSize(f.loginTime) +
    VarintFieldSize(f.timeStamp)
  }

  lemma StorageSizeIsExact(f: Fields, unknown: seq<Record>, posSize: nat)
    requires f.posInfo.Some? ==> forall d: nat :: GoodMessage(POS_INFO, PosMessage(f.posInfo.value), d) ==>
                posSize == |Serialize(POS_INFO, PosMessage(f.posInfo.value))|
    ensures forall depth: nat :: GoodMessage(LOGIN_RESULT, Message(Values(f), unknown), depth) ==>
              SizeByStorage(f, posSize) + UnknownSize(unknown) == |Serialize(LOGIN_RESULT, Message(Values(f), unknown))|
  {
    SchemasAreGood();
    forall depth: nat | GoodMessage(LOGIN_RESULT, Message(Values(f), unknown), depth)
      ensures SizeByStorage(f, posSize) + UnknownSize(unknown) == |Serialize(LOGIN_RESULT, Message(Values(f), unknown))|
    {
      GoodPosition(f, unknown, depth);
      SizeIsExact(LOGIN_RESULT, Message(Values(f), unknown), depth);
      SumOfSizes(f, posSize);
    }
  }

  lemma GoodPosition(f: Fields, unknown: seq<Record>, depth: nat)
    requires GoodMessage(LOGIN_RESULT, Message(Values(f), unknown), depth)
    ensures f.posInfo.Some? ==> depth > 0 && GoodMessage(POS_INFO, PosMessage(f.posInfo.value), depth - 1)
  {
    assert GoodValue(LOGIN_RESULT[6].kind, Values(f)[6], depth);
  }

  /** Storage order and number order add up to the same size. */
  lemma SumOfSizes(f: Fields, posSize: nat)
    requires f.posInfo.Some? ==> posSize == |Serialize(POS_INFO, PosMessage(f.posInfo.value))|
    ensures FieldSizesFrom(LOGIN_RESULT, Values(f), 0) == SizeByStorage(f, posSize)
  {
    SizesAddUp(LOGIN_RESULT, Values(f), f, posSize);
  }

  lemma SizesAddUp(schema: Schema, v: seq<Value>, f: Fields, posSize: nat)
    requires |schema| == |v| == 7
    requires schema[0].kind.Int32Kind? && schema[1].kind.BoolKind? && schema[2].kind.Int32Kind?
    requires schema[3].kind.StringKind?
    requires schema[4].kind.Int64Kind? && schema[5].kind.Int32Kind? && schema[6].kind == MessageKind(POS_INFO)
    requires v[0] == Scalar(f.sessionId) && v[1] == BoolValue(f.result) && v[2] == Scalar(f.playerType)
    requires v[3] == Text(f.playerStrId) && v[4] == Scalar(f.timeStamp) && v[5] == Scalar(f.loginTime)
    requires v[6] == SubValue(f.posInfo)
    requires f.posInfo.Some? ==> posSize == |Serialize(POS_INFO, PosMessage(f.posInfo.value))|
    ensures FieldSizesFrom(schema, v, 0) == SizeByStorage(f, posSize)
  {
    SevenSizes(schema, v);
    ScalarSize(schema[0], f.sessionId);
    BoolSize(schema[1], f.result);
    ScalarSize(schema[2], f.playerType);
    TextSize(schema[3], f.playerStrId);
    ScalarSize(schema[4], f.timeStamp);
    ScalarSize(schema[5], f.loginTime);
    PositionSize(schema[6], f.posInfo, posSize);
  }

  lemma SevenSizes(schema: Schema, v: seq<Value>)
    requires |schema| == |v| == 7
    ensures FieldSizesFrom(schema, v, 0) ==
            FieldSize(schema[0], v[0]) + FieldSize(schema[1], v[1]) + FieldSize(schema[2], v[2]) +
            FieldSize(schema[3], v[3]) + FieldSize(schema[4], v[4]) + FieldSize(schema[5], v[5]) +
            FieldSize(schema[6], v[6])
  {
    assert FieldSizesFrom(schema, v, 5) == FieldSize(schema[5], v[5]) + FieldSize(schema[6], v[6]) by {
      assert FieldSizesFrom(schema, v, 7) == 0;
    }
    assert FieldSizesFrom(schema, v, 3) ==
           FieldSize(schema[3], v[3]) + FieldSize(schema[4], v[4]) + FieldSizesFrom(schema, v, 5);
    assert FieldSizesFrom(schema, v, 1) ==
           FieldSize(schema[1], v[1]) + FieldSize(schema[2], v[2]) + FieldSizesFrom(schema, v, 3);
  }

  lemma ScalarSize(spec: FieldSpec, n: int)
    requires spec.kind.Int32Kind? || spec.kind.Int64Kind?
    ensures FieldSize(spec, Scalar(n)) == VarintFieldSize(n)
  {
  }

  lemma BoolSize(spec: FieldSpec, b: bool)
    requires spec.kind.BoolKind?
    ensures FieldSize(spec, BoolValue(b)) == if b then 2 else 0
  {
    assert VarintSize(1) == 1;
  }

  lemma TextSize(spec: FieldSpec, text: seq<Byte>)
    requires spec.kind.StringKind?
    ensures FieldSize(spec, Text(text)) == if text != [] then 1 + LengthDelimitedSize(|text|) else 0
  {
  }

  lemma PositionSize(spec: FieldSpec, p: Option<Pos>, posSize: nat)
    requires spec.kind == MessageKind(POS_INFO)
    requires p.Some? ==> posSize == |Serialize(POS_INFO, PosMessage(p.value))|
    ensures FieldSize(spec, SubValue(p)) == if p.Some? then 1 + LengthDelimitedSize(posSize) else 0
  {
  }

  /** `if (from's field is set) set it`, in storage order. */
  method MergeFields(i: Fields, j: Fields) returns (to: Fields)
    ensures Overlays(i, j, to)
  {
    to := i;
    if j.playerStrId != [] { to := to.(playerStrId := j.playerStrId); }
    var pos := MergePosInfo(to.posInfo, j.posInfo);
    to := to.(posInfo := pos);
    if j.sessionId != 0 { to := to.(sessionId := j.sessionId); }
    if j.result { to := to.(result := j.result); }
    if j.playerType != 0 { to := to.(playerType := j.playerType); }
    if j.loginTime != 0 { to := to.(loginTime := j.loginTime); }
    if j.timeStamp != 0 { to := to.(timeStamp := j.timeStamp); }
  }

  method MergePosInfo(p: Option<Pos>, from: Option<Pos>) returns (merged: Option<Pos>)
    ensures SubValue(merged) == MergeValue(MessageKind(POS_INFO), SubValue(p), SubValue(from))
  {
    if from.None? { return p; }
    var pos := MergePos(p, from.value);
    merged := Some(pos);
  }

  /** Every field of `to` is what merging asks for. */
  ghost predicate Overlays(i: Fields, j: Fields, to: Fields) {
    && to.sessionId == (if j.sessionId != 0 then j.sessionId else i.sessionId)
    && to.result == (j.result || i.result)
    && to.playerType == (if j.playerType != 0 then j.playerType else i.playerType)
    && to.playerStrId == (if j.playerStrId != [] then j.playerStrId else i.playerStrId)
    && to.timeStamp == (if j.timeStamp != 0 then j.timeStamp else i.timeStamp)
    && to.loginTime == (if j.loginTime != 0 then j.loginTime else i.loginTime)
    && SubValue(to.posInfo) == MergeValue(MessageKind(POS_INFO), SubValue(i.posInfo), SubValue(j.posInfo))
  }

  lemma MergeOfFields(a: Message, i: Fields, b: Message, j: Fields)
    requires a.values == Values(i) && b.values == Values(j)
    ensures forall to: Fields :: Overlays(i, j, to) ==> Values(to) == Merge(LOGIN_RESULT, a, b).values
  {
    var merged := Merge(LOGIN_RESULT, a, b).values;
    assert forall k :: 0 <= k < 7 ==> merged[k] == MergeValue(LOGIN_RESULT[k].kind, a.values[k], b.values[k]) by {
      forall k | 0 <= k < 7
        ensures merged[k] == MergeValue(LOGIN_RESULT[k].kind, a.values[k], b.values[k])
      {
        MergeAt(LOGIN_RESULT, a, b, k);
      }
    }
    forall to: Fields | Overlays(i, j, to)
      ensures Values(to) == merged
    {
      FieldsAreMerged(LOGIN_RESULT, i, j, to, merged);
    }
  }

  lemma OverlayOfDefault(b: Message, j: Fields)
    requires b.values == Values(j)
    ensures Merge(LOGIN_RESULT, Default(LOGIN_RESULT), b) == b
  {
    assert Default(LOGIN_RESULT).values == Values(CLEARED);
    if j.posInfo.Some? {
      PlayerPosInfo.OverlayOfDefault(PosMessage(j.posInfo.value), j.posInfo.value.impl);
    }
    MergeOfFields(Default(LOGIN_RESULT), CLEARED, b, j);
    assert Overlays(CLEARED, j, j);
    assert [] + b.unknown == b.unknown;
  }

  lemma FieldsAreMerged(schema: Schema, i: Fields, j: Fields, to: Fields, merged: seq<Value>)
    requires Overlays(i, j, to) && |merged| == |schema| == 7 && schema[6].kind == MessageKind(POS_INFO)
    requires forall k :: 0 <= k < 7 ==> merged[k] == MergeValue(schema[k].kind, Values(i)[k], Values(j)[k])
    ensures Values(to) == merged
  {
    ScalarWins(schema[0].kind, i.sessionId, j.sessionId);
    ScalarWins(schema[1].kind, if i.result then 1 else 0, if j.result then 1 else 0);
    ScalarWins(schema[2].kind, i.playerType, j.playerType);
    TextWins(schema[3].kind, i.playerStrId, j.playerStrId);
    ScalarWins(schema[4].kind, i.timeStamp, j.timeStamp);
    ScalarWins(schema[5].kind, i.loginTime, j.loginTime);
  }

  lemma ScalarWins(kind: Kind, a: int, b: int)
    ensures MergeValue(kind, Scalar(a), Scalar(b)) == Scalar(if b != 0 then b else a)
  {
  }

  lemma TextWins(kind: Kind, a: seq<Byte>, b: seq<Byte>)
    ensures MergeValue(kind, Text(a), Text(b)) == Text(if b != [] then b else a)
  {
  }
}
