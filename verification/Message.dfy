/** The generated codec for any message type: field-by-field serialization with default elision,
    the parse loop, and merging. */
module Message {
  import opened Basics
  import opened Wire
  import Utf8

  datatype Kind = FloatKind | Int32Kind | Int64Kind | BoolKind | StringKind | MessageKind(fields: Schema)

  datatype FieldSpec = FieldSpec(number: nat, kind: Kind)

  type Schema = seq<FieldSpec>

  /** Floats are their raw 32-bit words, integers are signed, booleans are 0 or 1. */
  datatype Value = Scalar(n: int) | Text(bytes: seq<Byte>) | Sub(message: Option<Message>)

  /** One value per field of the schema, in schema order, and the unknown fields in order of arrival. */
  datatype Message = Message(values: seq<Value>, unknown: seq<Record>)

  function DefaultValue(kind: Kind): Value {
    match kind
    case StringKind => Text([])
    case MessageKind(_) => Sub(None)
    case _ => Scalar(0)
  }

  function Default(schema: Schema): (m: Message)
    ensures |m.values| == |schema|
  {
    Message(seq(|schema|, i requires 0 <= i < |schema| => DefaultValue(schema[i].kind)), [])
  }

  predicate IsDefault(v: Value) {
    v == Scalar(0) || v == Text([]) || v == Sub(None)
  }

  // ---- Serialization -------------------------------------------------------------------------

  /** Negative 32-bit integers are sign-extended to 64 bits before the varint is written. */
  function FieldPayload(kind: Kind, v: Value): Payload
    decreases v, 0
  {
    match v
    case Scalar(n) => if kind.FloatKind? then Fixed32Field(n % W32) else VarintField(n % W64)
    case Text(bytes) => BytesField(bytes)
    case Sub(None) => BytesField([])
    case Sub(Some(m)) => BytesField(if kind.MessageKind? then Serialize(kind.fields, m) else [])
  }

  /** Default values are not written. */
  function FieldRecords(spec: FieldSpec, v: Value): seq<Record>
    decreases v, 1
  {
    if IsDefault(v) then [] else [Record(spec.number, FieldPayload(spec.kind, v))]
  }

  function RecordsFrom(schema: Schema, values: seq<Value>, i: nat): seq<Record>
    decreases values, 2, |values| - i
  {
    if i < |schema| && i < |values| then FieldRecords(schema[i], values[i]) + RecordsFrom(schema, values, i + 1)
    else []
  }

  function Records(schema: Schema, m: Message): seq<Record>
    decreases m, 0
  {
    RecordsFrom(schema, m.values, 0) + m.unknown
  }

  function Serialize(schema: Schema, m: Message): seq<Byte>
    decreases m, 1
  {
    Encode(Records(schema, m))
  }

  // ---- Parsing -------------------------------------------------------------------------------

  /** Position of the field with this number, or `|schema|`. */
  function Find(schema: Schema, number: nat): (i: nat)
    ensures i <= |schema| && (i < |schema| ==> schema[i].number == number)
  {
    if schema == [] || schema[0].number == number then 0 else 1 + Find(schema[1..], number)
  }

  predicate Matches(kind: Kind, p: Payload) {
    match kind
    case FloatKind => p.Fixed32Field?
    case StringKind => p.BytesField?
    case MessageKind(_) => p.BytesField?
    case _ => p.VarintField?
  }

  /** A known number with an unexpected wire type is handled as an unknown field. */
  predicate Known(schema: Schema, r: Record) {
    var i := Find(schema, r.number);
    i < |schema| && Matches(schema[i].kind, r.payload)
  }

  function ToInt32(v: Word64): int {
    var w := v % W32;
    if w < 0x8000_0000 then w else w - W32
  }

  function ToInt64(v: Word64): int {
    if v < 0x8000_0000_0000_0000 then v else v - W64
  }

  /** The submessage being merged into: the present one, or a new one. */
  function Current(fields: Schema, v: Value): (m: Message)
    ensures |m.values| == |fields|
  {
    if v.Sub? && v.message.Some? && |v.message.value.values| == |fields| then v.message.value else Default(fields)
  }

  /** Reads one payload into a field; `None` when the payload is not acceptable. */
  function Absorb(spec: FieldSpec, v: Value, p: Payload, depth: nat): Option<Value>
    requires Matches(spec.kind, p)
    decreases spec
  {
    match spec.kind
    case FloatKind => Some(Scalar(p.w32))
    case Int32Kind => Some(Scalar(ToInt32(p.v)))
    case Int64Kind => Some(Scalar(ToInt64(p.v)))
    case BoolKind => Some(Scalar(if p.v == 0 then 0 else 1))
    case StringKind => if Utf8.Valid(p.bytes) then Some(Text(p.bytes)) else None
    case MessageKind(fields) =>
      if depth == 0 then None
      else match ParseInto(fields, Current(fields, v), p.bytes, depth - 1)
        case None => None
        case Some(m) => Some(Sub(Some(m)))
  }

  function Apply(schema: Schema, m: Message, r: Record, depth: nat): (m': Option<Message>)
    requires |m.values| == |schema|
    ensures m'.Some? ==> |m'.value.values| == |schema|
    decreases schema, 0
  {
    var i := Find(schema, r.number);
    if i < |schema| && Matches(schema[i].kind, r.payload) then
      match Absorb(schema[i], m.values[i], r.payload, depth)
      case None => None
      case Some(v) => Some(m.(values := m.values[i := v]))
    else Some(m.(unknown := m.unknown + [r]))
  }

  function Fold(schema: Schema, m: Message, rs: seq<Record>, depth: nat): (m': Option<Message>)
    requires |m.values| == |schema|
    ensures m'.Some? ==> |m'.value.values| == |schema|
    decreases schema, 1, |rs|
  {
    if rs == [] then Some(m)
    else match Apply(schema, m, rs[0], depth)
      case None => None
      case Some(m1) => Fold(schema, m1, rs[1..], depth)
  }

  /** Parses into a message that may already hold values; `None` is a failed parse. */
  function ParseInto(schema: Schema, m: Message, bs: seq<Byte>, depth: nat): (m': Option<Message>)
    requires |m.values| == |schema|
    ensures m'.Some? ==> |m'.value.values| == |schema|
    decreases schema, 2
  {
    match Decode(bs, depth, 0)
    case Malformed => None
    case Read(rs, _) => Fold(schema, m, rs, depth)
  }

  function Parse(schema: Schema, bs: seq<Byte>): Option<Message> {
    ParseInto(schema, Default(schema), bs, MAX_DEPTH)
  }

  // ---- Merging -------------------------------------------------------------------------------

  /** MergeImpl field by field: set values win, submessages merge recursively. */
  function MergeValue(kind: Kind, a: Value, b: Value): Value
    decreases b
  {
    if IsDefault(b) then a
    else if kind.MessageKind? && b.Sub? then Sub(Some(Merge(kind.fields, Current(kind.fields, a), b.message.value)))
    else b
  }

  function Merge(schema: Schema, a: Message, b: Message): (m: Message)
    requires |a.values| == |schema|
    ensures |m.values| == |schema|
    decreases b
  {
    Message(seq(|schema|, i requires 0 <= i < |schema| =>
              if i < |b.values| then MergeValue(schema[i].kind, a.values[i], b.values[i]) else a.values[i]),
            a.unknown + b.unknown)
  }
}
