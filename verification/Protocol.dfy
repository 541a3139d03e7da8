/** The message types of Protocol.proto that carry positions, and what the parse loop of any of them does
    with the next bytes. */
module Protocol {
  import opened Basics
  import opened Wire
  import opened Message
  import opened MessageLaws
  import Sizes
  import Utf8

  function Floats(n: nat): (schema: Schema)
    ensures |schema| == n && forall i :: 0 <= i < n ==> schema[i] == FieldSpec(i + 1, FloatKind)
  {
    seq(n, i requires 0 <= i < n => FieldSpec(i + 1, FloatKind))
  }

  /** PLAYER_POS_INFO: x, y, z, yaw, pitch, roll, vx, vy, vz, ax, ay, az. */
  const POS_INFO: Schema := Floats(12)

  /** S2C_LOGIN_RESULT */
  const LOGIN_RESULT: Schema := [
    FieldSpec(1, Int32Kind),              // session_id
    FieldSpec(2, BoolKind),               // result
    FieldSpec(3, Int32Kind),              // player_type
    FieldSpec(4, StringKind),             // player_str_id
    FieldSpec(5, Int64Kind),              // time_stamp
    FieldSpec(6, Int32Kind),              // login_time
    FieldSpec(7, MessageKind(POS_INFO))   // pos_info
  ]

  /** C2S_MOVE */
  const C2S_MOVE: Schema := [
    FieldSpec(1, Int32Kind),              // session_id
    FieldSpec(2, MessageKind(POS_INFO)),  // pos_info
    FieldSpec(3, Int64Kind),              // time_stamp
    FieldSpec(4, BoolKind)                // request_result
  ]

  /** S2C_ENTER */
  const S2C_ENTER: Schema := [
    FieldSpec(1, Int32Kind),              // session_id
    FieldSpec(2, Int32Kind),              // target_id
    FieldSpec(3, StringKind),             // target_str_id
    FieldSpec(4, Int32Kind),              // player_type
    FieldSpec(5, Int64Kind),              // time_stamp
    FieldSpec(6, MessageKind(POS_INFO))   // pos_info
  ]

  /** The four schemas number their fields 1, 2, 3, ... */
  predicate Consecutive(schema: Schema) {
    |schema| < 16 && forall i :: 0 <= i < |schema| ==> schema[i].number == i + 1
  }

  lemma SchemasAreGood()
    ensures GoodSchema(POS_INFO) && GoodSchema(LOGIN_RESULT) && GoodSchema(C2S_MOVE) && GoodSchema(S2C_ENTER)
    ensures Consecutive(POS_INFO) && Consecutive(LOGIN_RESULT) && Consecutive(C2S_MOVE) && Consecutive(S2C_ENTER)
  {
    assert GoodSchema(POS_INFO);
    assert GoodField(FieldSpec(7, MessageKind(POS_INFO)));
    assert GoodField(FieldSpec(2, MessageKind(POS_INFO)));
    assert GoodField(FieldSpec(6, MessageKind(POS_INFO)));
  }

  lemma {:induction false} FindConsecutive(schema: Schema, first: nat, number: nat)
    requires forall i :: 0 <= i < |schema| ==> schema[i].number == first + i
    ensures Find(schema, number) == if first <= number < first + |schema| then number - first else |schema|
  {
    if schema != [] && schema[0].number != number { FindConsecutive(schema[1..], first + 1, number); }
  }

  /** What one turn of a parse loop must do with `tag` and the bytes behind it. */
  function FieldStep(schema: Schema, m: Message, tag: Word32, bs: seq<Byte>, depth: nat): (r: Read<Message>)
    requires |m.values| == |schema|
    ensures r.Read? ==> r.used <= |bs| && |r.value.values| == |schema|
  {
    match DecodePayload(tag, bs, depth)
    case Malformed => Malformed
    case Read(p, n) =>
      match Apply(schema, m, Record(tag / 8, p), depth)
      case None => Malformed
      case Some(m') => Read(m', n)
  }

  /** Tag 0 and end-group tags end the loop early, which no caller accepts. */
  predicate EndsLoop(tag: Word32) {
    tag == 0 || tag % 8 == END_GROUP
  }

  /** One turn of a parse loop: read a tag, then the field behind it. */
  function Turn(schema: Schema, m: Message, bs: seq<Byte>, depth: nat): (r: Read<Message>)
    requires |m.values| == |schema|
    ensures r.Read? ==> 0 < r.used <= |bs| && |r.value.values| == |schema|
  {
    match ReadTag(bs)
    case Malformed => Malformed
    case Read(tag, n) =>
      if EndsLoop(tag) then Malformed
      else match FieldStep(schema, m, tag, bs[n..], depth)
        case Malformed => Malformed
        case Read(m', k) => Read(m', n + k)
  }

  /** The loop is one turn, and the rest. */
  lemma ParseTurn(schema: Schema, m: Message, bs: seq<Byte>, depth: nat)
    requires |m.values| == |schema| && bs != []
    ensures ParseInto(schema, m, bs, depth) ==
            match Turn(schema, m, bs, depth)
            case Malformed => None
            case Read(m', n) => ParseInto(schema, m', bs[n..], depth)
  {
  }

  /** The record a known field of a consecutive schema hits. */
  lemma StepHits(schema: Schema, m: Message, tag: Word32, bs: seq<Byte>, depth: nat)
    requires Consecutive(schema) && |m.values| == |schema|
    ensures var i := tag / 8 - 1;
            FieldStep(schema, m, tag, bs, depth) ==
            match DecodePayload(tag, bs, depth)
            case Malformed => Malformed
            case Read(p, n) =>
              if 0 <= i < |schema| && Matches(schema[i].kind, p) then
                match Absorb(schema[i], m.values[i], p, depth)
                case None => Malformed
                case Some(v) => Read(m.(values := m.values[i := v]), n)
              else Read(m.(unknown := m.unknown + [Record(tag / 8, p)]), n)
  {
    FindConsecutive(schema, 1, tag / 8);
  }

  // ---- The turns of the generated switches ------------------------------------------------------

  lemma VarintStep(schema: Schema, m: Message, tag: Word32, bs: seq<Byte>, depth: nat)
    requires Consecutive(schema) && |m.values| == |schema| && 1 <= tag / 8 <= |schema| && tag % 8 == 0
    requires var kind := schema[tag / 8 - 1].kind; kind.Int32Kind? || kind.Int64Kind? || kind.BoolKind?
    ensures FieldStep(schema, m, tag, bs, depth) ==
            match ReadVarint64(bs)
            case Malformed => Malformed
            case Read(v, n) =>
              var kind := schema[tag / 8 - 1].kind;
              var value :=
                if kind.Int32Kind? then ToInt32(v) else if kind.Int64Kind? then ToInt64(v) else if v == 0 then 0 else 1;
              Read(m.(values := m.values[tag / 8 - 1 := Scalar(value)]), n)
  {
    StepHits(schema, m, tag, bs, depth);
  }

  lemma TextStep(schema: Schema, m: Message, tag: Word32, bs: seq<Byte>, depth: nat)
    requires Consecutive(schema) && |m.values| == |schema| && 1 <= tag / 8 <= |schema| && tag % 8 == 2
    requires schema[tag / 8 - 1].kind.StringKind?
    ensures FieldStep(schema, m, tag, bs, depth) ==
            match ReadBytes(bs)
            case Malformed => Malformed
            case Read(text, n) =>
              if Utf8.Valid(text) then Read(m.(values := m.values[tag / 8 - 1 := Text(text)]), n) else Malformed
  {
    StepHits(schema, m, tag, bs, depth);
  }

  lemma SubStep(schema: Schema, m: Message, tag: Word32, bs: seq<Byte>, depth: nat)
    requires Consecutive(schema) && |m.values| == |schema| && 1 <= tag / 8 <= |schema| && tag % 8 == 2
    requires schema[tag / 8 - 1].kind == MessageKind(POS_INFO)
    ensures FieldStep(schema, m, tag, bs, depth) ==
            match ReadBytes(bs)
            case Malformed => Malformed
            case Read(body, n) =>
              if depth == 0 then Malformed
              else match ParseInto(POS_INFO, Current(POS_INFO, m.values[tag / 8 - 1]), body, depth - 1)
                case None => Malformed
                case Some(sub) => Read(m.(values := m.values[tag / 8 - 1 := Sub(Some(sub))]), n)
  {
    StepHits(schema, m, tag, bs, depth);
  }

  /** `handle_unusual`: an unknown number, or a known one with another wire type. */
  lemma UnusualStep(schema: Schema, m: Message, tag: Word32, bs: seq<Byte>, depth: nat)
    requires Consecutive(schema) && |m.values| == |schema|
    requires 1 <= tag / 8 <= |schema| ==> tag % 8 != KindWire(schema[tag / 8 - 1].kind)
    ensures FieldStep(schema, m, tag, bs, depth) ==
            match DecodePayload(tag, bs, depth)
            case Malformed => Malformed
            case Read(p, n) => Read(m.(unknown := m.unknown + [Record(tag / 8, p)]), n)
  {
    StepHits(schema, m, tag, bs, depth);
  }

  /** The wire type a kind is read from. */
  function KindWire(kind: Kind): nat {
    match kind
    case FloatKind => 5
    case StringKind => 2
    case MessageKind(_) => 2
    case _ => 0
  }

  // ---- Building blocks of the generated serializers --------------------------------------------

  /** Bytes of the fields from `i` on. */
  function Unwritten(schema: Schema, values: seq<Value>, i: nat): seq<Byte> {
    Encode(RecordsFrom(schema, values, i))
  }

  lemma WriteTurn(schema: Schema, values: seq<Value>, i: nat)
    requires i < |schema| == |values|
    ensures Unwritten(schema, values, i) ==
            Encode(FieldRecords(schema[i], values[i])) + Unwritten(schema, values, i + 1)
  {
    EncodeAppend(FieldRecords(schema[i], values[i]), RecordsFrom(schema, values, i + 1));
  }

  lemma EncodeOne(r: Record)
    ensures Encode([r]) == EncodeRecord(r)
  {
    assert Encode([r]) == EncodeRecord(r) + Encode([]);
  }

  /** One `if (field is set) target = Write...ToArray(number, value, target)`; the ghost arguments say
      how much of the message is written. */
  method WriteField(spec: FieldSpec, v: Value, written: seq<Byte>,
                    ghost schema: Schema, ghost values: seq<Value>, ghost i: nat, ghost total: seq<Byte>)
    returns (target: seq<Byte>)
    requires i < |schema| == |values| && schema[i] == spec && values[i] == v
    requires written + Unwritten(schema, values, i) == total
    ensures target + Unwritten(schema, values, i + 1) == total
  {
    WriteTurn(schema, values, i);
    ghost var rest := Unwritten(schema, values, i + 1);
    if IsDefault(v) {
      assert Encode(FieldRecords(spec, v)) + rest == rest;
      return written;
    }
    var r := Record(spec.number, FieldPayload(spec.kind, v));
    EncodeOne(r);
    target := written + EncodeRecord(r);
    assert written + (EncodeRecord(r) + rest) == target + rest;
  }

  lemma SizeIsExact(schema: Schema, m: Message, depth: nat)
    requires GoodSchema(schema) && Consecutive(schema) && GoodMessage(schema, m, depth)
    ensures Sizes.FieldSizesFrom(schema, m.values, 0) + Sizes.UnknownSize(m.unknown) == |Serialize(schema, m)|
  {
    RecordsEncodable(schema, m, depth);
    Sizes.ByteSizeIsExact(schema, m, depth);
  }
}
