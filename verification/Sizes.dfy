/** ByteSizeLong: the size formulas of the library and their agreement with what is written. */
module Sizes {
  import opened Wire
  import opened Message

  function Log2Floor(v: nat): nat
    requires v > 0
  {
    if v == 1 then 0 else 1 + Log2Floor(v / 2)
  }

  /** `(Log2FloorNonZero(value | 1) * 9 + 73) / 64`: the division by seven as a multiplication. */
  function VarintSize(v: nat): nat {
    (Log2Floor(if v % 2 == 0 then v + 1 else v) * 9 + 73) / 64
  }

  /** Seven halvings take one varint byte. */
  lemma Log2Of128(v: nat)
    requires v >= 128
    ensures Log2Floor(v) == 7 + Log2Floor(v / 128)
  {
    assert v / 2 / 2 == v / 4 && v / 4 / 2 == v / 8 && v / 8 / 2 == v / 16;
    assert v / 16 / 2 == v / 32 && v / 32 / 2 == v / 64 && v / 64 / 2 == v / 128;
    assert Log2Floor(v) == 1 + Log2Floor(v / 2);
    assert Log2Floor(v / 2) == 1 + Log2Floor(v / 4);
    assert Log2Floor(v / 4) == 1 + Log2Floor(v / 8);
    assert Log2Floor(v / 8) == 1 + Log2Floor(v / 16);
    assert Log2Floor(v / 16) == 1 + Log2Floor(v / 32);
    assert Log2Floor(v / 32) == 1 + Log2Floor(v / 64);
  }

  lemma {:induction false} VarintLengthIsLog2(v: nat)
    requires v > 0
    ensures |Varint(v)| == Log2Floor(v) / 7 + 1
  {
    if v < 128 {
      SmallLog2(v);
    } else {
      Log2Of128(v);
      VarintLengthIsLog2(v / 128);
    }
  }

  lemma SmallLog2(v: nat)
    requires 0 < v < 128
    ensures Log2Floor(v) < 7
  {
    Log2Monotone(v, 127);
    assert Log2Floor(127) == 1 + Log2Floor(63);
    assert Log2Floor(63) == 1 + Log2Floor(31);
    assert Log2Floor(31) == 1 + Log2Floor(15);
    assert Log2Floor(15) == 1 + Log2Floor(7);
    assert Log2Floor(7) == 1 + Log2Floor(3);
  }

  lemma {:induction false} Log2Monotone(v: nat, w: nat)
    requires 0 < v <= w
    ensures Log2Floor(v) <= Log2Floor(w)
  {
    if v > 1 { Log2Monotone(v / 2, w / 2); }
  }

  /** The formula gives the number of bytes the varint writer emits, for every 64-bit value. */
  lemma VarintSizeIsExact(v: nat)
    requires v < W64
    ensures VarintSize(v) == |Varint(v)|
  {
    if v == 0 {
    } else {
      var k := Log2Floor(v);
      assert v % 2 == 0 ==> Log2Floor(v + 1) == Log2Floor(v);
      VarintLengthIsLog2(v);
      VarintWidths(v);
      var q, r := k / 7, k % 7;
      assert q <= 9 && k == 7 * q + r;
      assert 9 * k + 73 == 64 * (q + 1) + (9 - q + 9 * r);
    }
  }

  // ---- Fields and unknown fields ---------------------------------------------------------------

  /** Size of one written field whose number is below 16, so that its tag takes one byte. */
  function FieldSize(spec: FieldSpec, v: Value): nat {
    if IsDefault(v) then 0
    else match FieldPayload(spec.kind, v)
      case VarintField(n) => 1 + VarintSize(n)
      case Fixed32Field(_) => 1 + 4
      case Fixed64Field(_) => 1 + 8
      case BytesField(bytes) => 1 + LengthDelimitedSize(|bytes|)
      case GroupField(fields) => 1 + UnknownSize(fields) + 1
  }

  function LengthDelimitedSize(length: nat): nat {
    length + VarintSize(length)
  }

  function UnknownSize(rs: seq<Record>): nat
    decreases rs
  {
    if rs == [] then 0 else RecordSize(rs[0]) + UnknownSize(rs[1..])
  }

  function RecordSize(r: Record): nat
    decreases r
  {
    VarintSize(r.number * 8) +
    match r.payload
    case VarintField(n) => VarintSize(n)
    case Fixed32Field(_) => 4
    case Fixed64Field(_) => 8
    case BytesField(bytes) => LengthDelimitedSize(|bytes|)
    case GroupField(fields) => UnknownSize(fields) + VarintSize(r.number * 8)
  }

  lemma TagSize(r: Record, depth: nat)
    requires Encodable(r, depth)
    ensures VarintSize(r.number * 8) == |Varint(Tag(r))| == |Varint(r.number * 8 + END_GROUP)|
  {
    var base := r.number * 8;
    VarintSizeIsExact(base);
    SameVarintLength(base, Tag(r));
    SameVarintLength(base, base + END_GROUP);
  }

  lemma SameVarintLength(base: nat, tag: nat)
    requires base % 8 == 0 && base <= tag < base + 8
    ensures |Varint(tag)| == |Varint(base)|
  {
    if tag >= 128 { assert tag / 128 == base / 128; }
  }

  lemma {:induction false} UnknownSizeIsExact(rs: seq<Record>, depth: nat)
    requires forall r <- rs :: Encodable(r, depth)
    ensures UnknownSize(rs) == |Encode(rs)|
    decreases rs
  {
    if rs != [] {
      RecordSizeIsExact(rs[0], depth);
      UnknownSizeIsExact(rs[1..], depth);
    }
  }

  lemma {:induction false} RecordSizeIsExact(r: Record, depth: nat)
    requires Encodable(r, depth)
    ensures RecordSize(r) == |EncodeRecord(r)|
    decreases r
  {
    TagSize(r, depth);
    match r.payload
    case VarintField(v) => VarintSizeIsExact(v);
    case BytesField(bytes) => VarintSizeIsExact(|bytes|);
    case GroupField(fields) => UnknownSizeIsExact(fields, depth - 1);
    case _ =>
  }

  lemma FieldSizeIsExact(spec: FieldSpec, v: Value, depth: nat)
    requires 1 <= spec.number < 16
    requires !IsDefault(v) ==> Encodable(Record(spec.number, FieldPayload(spec.kind, v)), depth)
    ensures FieldSize(spec, v) == |Encode(FieldRecords(spec, v))|
  {
    if !IsDefault(v) {
      var r := Record(spec.number, FieldPayload(spec.kind, v));
      assert FieldRecords(spec, v) == [r] && Encode([r]) == EncodeRecord(r) + Encode([]);
      var payload := EncodePayload(spec.number, r.payload);
      assert |Encode([r])| == |Varint(Tag(r))| + |payload|;
      assert |Varint(Tag(r))| == 1;
      if r.payload.VarintField? { VarintSizeIsExact(r.payload.v); }
      if r.payload.BytesField? { VarintSizeIsExact(|r.payload.bytes|); }
      assert FieldSize(spec, v) == 1 + |payload|;
    }
  }

  function FieldSizesFrom(schema: Schema, values: seq<Value>, i: nat): nat
    requires |values| == |schema|
    decreases |schema| - i
  {
    if i < |schema| then FieldSize(schema[i], values[i]) + FieldSizesFrom(schema, values, i + 1) else 0
  }

  lemma {:induction false} FieldSizesAreExact(schema: Schema, values: seq<Value>, i: nat, depth: nat)
    requires |values| == |schema| && forall f <- schema :: 1 <= f.number < 16
    requires forall r <- RecordsFrom(schema, values, i) :: Encodable(r, depth)
    ensures FieldSizesFrom(schema, values, i) == |Encode(RecordsFrom(schema, values, i))|
    decreases |schema| - i
  {
    if i < |schema| {
      assert schema[i] in schema;
      var first, rest := FieldRecords(schema[i], values[i]), RecordsFrom(schema, values, i + 1);
      assert forall r <- first :: r in RecordsFrom(schema, values, i);
      if !IsDefault(values[i]) { assert first[0] in first; }
      FieldSizeIsExact(schema[i], values[i], depth);
      EncodeAppend(first, rest);
      FieldSizesAreExact(schema, values, i + 1, depth);
    }
  }

  /** ByteSizeLong of any message type of this protocol: the sum of its field sizes, whatever the order. */
  lemma ByteSizeIsExact(schema: Schema, m: Message, depth: nat)
    requires |m.values| == |schema| && forall f <- schema :: 1 <= f.number < 16
    requires forall r <- Records(schema, m) :: Encodable(r, depth)
    ensures FieldSizesFrom(schema, m.values, 0) + UnknownSize(m.unknown) == |Serialize(schema, m)|
  {
    assert forall r <- RecordsFrom(schema, m.values, 0) :: r in Records(schema, m);
    FieldSizesAreExact(schema, m.values, 0, depth);
    UnknownSizeIsExact(m.unknown, depth);
    EncodeAppend(RecordsFrom(schema, m.values, 0), m.unknown);
  }
}
