/** Whatever bytes a parse accepts, the message it yields serializes to bytes that yield it again. */
module MessageCanonical {
  import opened Wire
  import opened Message
  import opened MessageLaws
  import Utf8

  /** What the parse loop guarantees of a value: its type, valid text, encodable unknown fields. */
  predicate ParsedValue(kind: Kind, v: Value, depth: nat)
    decreases v
  {
    match kind
    case FloatKind => v.Scalar? && 0 <= v.n < W32
    case Int32Kind => v.Scalar? && -0x8000_0000 <= v.n < 0x8000_0000
    case Int64Kind => v.Scalar? && -0x8000_0000_0000_0000 <= v.n < 0x8000_0000_0000_0000
    case BoolKind => v == Scalar(0) || v == Scalar(1)
    case StringKind => v.Text? && |v.bytes| <= MAX_SIZE && Utf8.Valid(v.bytes)
    case MessageKind(fields) =>
      v.Sub? && (v.message.Some? ==> depth > 0 && ParsedMessage(fields, v.message.value, depth - 1))
  }

  predicate ParsedMessage(schema: Schema, m: Message, depth: nat)
    decreases m
  {
    && |m.values| == |schema|
    && (forall i :: 0 <= i < |schema| ==> ParsedValue(schema[i].kind, m.values[i], depth))
    && forall r <- m.unknown :: !Known(schema, r) && Encodable(r, depth)
  }

  /** Submessages stay below the size limit of a length prefix when written again. */
  predicate Fits(schema: Schema, m: Message)
    decreases m
  {
    forall i :: 0 <= i < |schema| && i < |m.values| ==> ValueFits(schema[i].kind, m.values[i])
  }

  predicate ValueFits(kind: Kind, v: Value)
    decreases v
  {
    kind.MessageKind? && v.Sub? && v.message.Some? ==>
      |Serialize(kind.fields, v.message.value)| <= MAX_SIZE && Fits(kind.fields, v.message.value)
  }

  lemma {:induction false} ParsedIsGood(schema: Schema, m: Message, depth: nat)
    requires ParsedMessage(schema, m, depth) && Fits(schema, m)
    ensures GoodMessage(schema, m, depth) && AllGoodText(m)
    decreases m
  {
    forall i | 0 <= i < |schema|
      ensures GoodValue(schema[i].kind, m.values[i], depth) && GoodText(m.values[i])
    {
      assert ParsedValue(schema[i].kind, m.values[i], depth) && ValueFits(schema[i].kind, m.values[i]);
      if schema[i].kind.MessageKind? && m.values[i].message.Some? {
        ParsedIsGood(schema[i].kind.fields, m.values[i].message.value, depth - 1);
      }
    }
  }

  lemma DefaultIsParsed(schema: Schema, depth: nat)
    ensures ParsedMessage(schema, Default(schema), depth)
  {
  }

  // ---- The parse loop yields only such messages -------------------------------------------------

  lemma {:induction false} DecodedIsEncodable(bs: seq<Byte>, depth: nat, group: nat)
    ensures var d := Decode(bs, depth, group); d.Read? ==> forall r <- d.value :: Encodable(r, depth)
    decreases |bs|, 0
  {
    if bs != [] && ReadTag(bs).Read? {
      var tag, n := ReadTag(bs).value, ReadTag(bs).used;
      var p := DecodePayload(tag, bs[n..], depth);
      if p.Read? {
        PayloadIsEncodable(tag, bs[n..], depth);
        DecodedIsEncodable(bs[n + p.used..], depth, group);
      }
    }
  }

  lemma {:induction false} PayloadIsEncodable(tag: Word32, bs: seq<Byte>, depth: nat)
    ensures var p := DecodePayload(tag, bs, depth); p.Read? ==> Encodable(Record(tag / 8, p.value), depth)
    decreases |bs|, 1
  {
    if tag % 8 == 3 && depth > 0 { DecodedIsEncodable(bs, depth - 1, tag / 8); }
  }

  lemma {:induction false} AbsorbedIsParsed(f: FieldSpec, v: Value, p: Payload, depth: nat)
    requires Matches(f.kind, p) && ParsedValue(f.kind, v, depth)
    requires p.BytesField? ==> |p.bytes| <= MAX_SIZE
    ensures var v' := Absorb(f, v, p, depth); v'.Some? ==> ParsedValue(f.kind, v'.value, depth)
    decreases f
  {
    if f.kind.MessageKind? && depth > 0 {
      DefaultIsParsed(f.kind.fields, depth - 1);
      ParseYieldsParsed(f.kind.fields, Current(f.kind.fields, v), p.bytes, depth - 1);
    }
  }

  lemma {:induction false} FoldYieldsParsed(schema: Schema, m: Message, rs: seq<Record>, depth: nat)
    requires ParsedMessage(schema, m, depth) && forall r <- rs :: Encodable(r, depth)
    ensures var m' := Fold(schema, m, rs, depth); m'.Some? ==> ParsedMessage(schema, m'.value, depth)
    decreases schema, 1, |rs|
  {
    if rs != [] {
      var next, i := Apply(schema, m, rs[0], depth), Find(schema, rs[0].number);
      assert Encodable(rs[0], depth);
      if Known(schema, rs[0]) { AbsorbedIsParsed(schema[i], m.values[i], rs[0].payload, depth); }
      if next.Some? { FoldYieldsParsed(schema, next.value, rs[1..], depth); }
    }
  }

  lemma {:induction false} ParseYieldsParsed(schema: Schema, m: Message, bs: seq<Byte>, depth: nat)
    requires ParsedMessage(schema, m, depth)
    ensures var m' := ParseInto(schema, m, bs, depth); m'.Some? ==> ParsedMessage(schema, m'.value, depth)
    decreases schema, 2
  {
    DecodedIsEncodable(bs, depth, 0);
    var d := Decode(bs, depth, 0);
    if d.Read? { FoldYieldsParsed(schema, m, d.value, depth); }
  }

  /** Parsing, writing and parsing again is parsing: whatever non-canonical bytes came in
      (long varints, repeated fields, unknown fields, any order). */
  lemma ReparseIsStable(schema: Schema, bs: seq<Byte>)
    requires GoodSchema(schema) && Parse(schema, bs).Some? && Fits(schema, Parse(schema, bs).value)
    ensures Parse(schema, Serialize(schema, Parse(schema, bs).value)) == Parse(schema, bs)
  {
    DefaultIsParsed(schema, MAX_DEPTH);
    ParseYieldsParsed(schema, Default(schema), bs, MAX_DEPTH);
    ParsedIsGood(schema, Parse(schema, bs).value, MAX_DEPTH);
    RoundTrip(schema, Parse(schema, bs).value);
  }
}
