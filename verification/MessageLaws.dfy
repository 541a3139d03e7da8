/** Laws of the generated codec, for every schema: parsing serialized bytes merges, whatever the order
    of the fields; round trip; and what makes a message parse back at all. */
module MessageLaws {
  import opened Basics
  import opened Wire
  import opened Message
  import Utf8

  /** Field numbers are legal and distinct, in submessages too. */
  predicate GoodSchema(schema: Schema)
    decreases schema
  {
    && (forall i, j :: 0 <= i < j < |schema| ==> schema[i].number != schema[j].number)
    && forall f <- schema :: GoodField(f)
  }

  predicate GoodField(f: FieldSpec)
    decreases f
  {
    1 <= f.number <= MAX_FIELD_NUMBER && (f.kind.MessageKind? ==> GoodSchema(f.kind.fields))
  }

  /** The value has the field's type and fits the limits of the format. */
  predicate GoodValue(kind: Kind, v: Value, depth: nat)
    decreases v
  {
    match kind
    case FloatKind => v.Scalar? && 0 <= v.n < W32
    case Int32Kind => v.Scalar? && -0x8000_0000 <= v.n < 0x8000_0000
    case Int64Kind => v.Scalar? && -0x8000_0000_0000_0000 <= v.n < 0x8000_0000_0000_0000
    case BoolKind => v == Scalar(0) || v == Scalar(1)
    case StringKind => v.Text? && |v.bytes| <= MAX_SIZE
    case MessageKind(fields) =>
      v.Sub? && (v.message.Some? ==>
        depth > 0 && GoodMessage(fields, v.message.value, depth - 1) &&
        |Serialize(fields, v.message.value)| <= MAX_SIZE)
  }

  predicate GoodMessage(schema: Schema, m: Message, depth: nat)
    decreases m
  {
    && |m.values| == |schema|
    && (forall i :: 0 <= i < |schema| ==> GoodValue(schema[i].kind, m.values[i], depth))
    && forall r <- m.unknown :: !Known(schema, r) && Encodable(r, depth)
  }

  /** Every string field, at every level, is well-formed UTF-8. */
  predicate GoodText(v: Value)
    decreases v
  {
    match v
    case Scalar(_) => true
    case Text(bytes) => Utf8.Valid(bytes)
    case Sub(None) => true
    case Sub(Some(m)) => AllGoodText(m)
  }

  predicate AllGoodText(m: Message)
    decreases m
  {
    forall v <- m.values :: GoodText(v)
  }

  // ---- Writing the fields of a message in any order -------------------------------------------

  /** One record of a serialization: field `i` of the message, or an unknown field. */
  datatype Pick = Field(i: nat) | Extra(r: Record)

  predicate GoodPick(schema: Schema, b: Message, depth: nat, pick: Pick) {
    match pick
    case Field(i) => i < |schema| && i < |b.values| && !IsDefault(b.values[i])
    case Extra(r) => !Known(schema, r) && Encodable(r, depth)
  }

  function PickRecord(schema: Schema, b: Message, pick: Pick): Record
    requires pick.Field? ==> pick.i < |schema| && pick.i < |b.values|
  {
    match pick
    case Field(i) => Record(schema[i].number, FieldPayload(schema[i].kind, b.values[i]))
    case Extra(r) => r
  }

  predicate GoodPicks(schema: Schema, b: Message, depth: nat, picks: seq<Pick>) {
    && (forall k :: 0 <= k < |picks| ==> GoodPick(schema, b, depth, picks[k]))
    && forall j, k :: 0 <= j < k < |picks| && picks[j].Field? ==> picks[j] != picks[k]
  }

  function PickRecords(schema: Schema, b: Message, depth: nat, picks: seq<Pick>): (rs: seq<Record>)
    requires GoodPicks(schema, b, depth, picks)
    ensures |rs| == |picks| && forall k :: 0 <= k < |picks| ==> rs[k] == PickRecord(schema, b, picks[k])
  {
    seq(|picks|, k requires 0 <= k < |picks| => PickRecord(schema, b, picks[k]))
  }

  function Extras(picks: seq<Pick>): seq<Record> {
    if picks == [] then []
    else (if picks[0].Extra? then [picks[0].r] else []) + Extras(picks[1..])
  }

  /** `a` after the picked records have been absorbed. */
  function Absorbed(schema: Schema, a: Message, b: Message, picks: seq<Pick>): (m: Message)
    requires |a.values| == |schema| == |b.values|
    ensures |m.values| == |schema|
  {
    Message(seq(|schema|, i requires 0 <= i < |schema| =>
              if Field(i) in picks then MergeValue(schema[i].kind, a.values[i], b.values[i]) else a.values[i]),
            a.unknown + Extras(picks))
  }

  predicate PicksGoodText(b: Message, picks: seq<Pick>) {
    forall p <- picks :: p.Field? && p.i < |b.values| ==> GoodText(b.values[p.i])
  }

  lemma {:induction false} FindHits(schema: Schema, i: nat)
    requires GoodSchema(schema) && i < |schema|
    ensures Find(schema, schema[i].number) == i
  {
    if i > 0 {
      assert schema[0].number != schema[i].number;
      assert GoodSchema(schema[1..]);
      FindHits(schema[1..], i - 1);
    }
  }

  lemma SignedWords(n: int)
    ensures -0x8000_0000 <= n < 0x8000_0000 ==> ToInt32(n % W64) == n
    ensures -0x8000_0000_0000_0000 <= n < 0x8000_0000_0000_0000 ==> ToInt64(n % W64) == n
  {
    if -0x8000_0000 <= n < 0 {
      assert n % W64 == n + W64;
      assert (n + W64) % W32 == n + W32;
    }
  }

  /** A written field is read back by merging it into whatever the field held. */
  lemma {:induction false} FieldRoundTrip(f: FieldSpec, a: Value, b: Value, depth: nat)
    requires GoodField(f) && GoodValue(f.kind, b, depth) && !IsDefault(b)
    ensures Matches(f.kind, FieldPayload(f.kind, b)) && Encodable(Record(f.number, FieldPayload(f.kind, b)), depth)
    ensures Absorb(f, a, FieldPayload(f.kind, b), depth) ==
            if GoodText(b) then Some(MergeValue(f.kind, a, b)) else None
    decreases b, 0
  {
    if f.kind.MessageKind? {
      var m, fields := b.message.value, f.kind.fields;
      ParseMerges(fields, Current(fields, a), m, depth - 1);
    } else if b.Scalar? {
      SignedWords(b.n);
    }
  }

  lemma {:induction false} FoldPicks(schema: Schema, a: Message, b: Message, depth: nat, picks: seq<Pick>)
    requires GoodSchema(schema) && |a.values| == |schema| && GoodMessage(schema, b, depth)
    requires GoodPicks(schema, b, depth, picks)
    ensures Fold(schema, a, PickRecords(schema, b, depth, picks), depth) ==
            if PicksGoodText(b, picks) then Some(Absorbed(schema, a, b, picks)) else None
    ensures forall r <- PickRecords(schema, b, depth, picks) :: Encodable(r, depth)
    decreases b, 1, |picks|
  {
    if picks == [] {
      assert Absorbed(schema, a, b, picks).values == a.values;
      assert a.unknown + [] == a.unknown;
    } else {
      var rs, rest := PickRecords(schema, b, depth, picks), picks[1..];
      assert GoodPick(schema, b, depth, picks[0]);
      assert GoodPicks(schema, b, depth, rest);
      assert rs[1..] == PickRecords(schema, b, depth, rest);
      match picks[0]
      case Field(i) =>
        FindHits(schema, i);
        assert schema[i] in schema;
        FieldRoundTrip(schema[i], a.values[i], b.values[i], depth);
        var a' := a.(values := a.values[i := MergeValue(schema[i].kind, a.values[i], b.values[i])]);
        FoldPicks(schema, a', b, depth, rest);
        FirstField(schema, a, b, picks, i);
      case Extra(r) =>
        var a' := a.(unknown := a.unknown + [r]);
        FoldPicks(schema, a', b, depth, rest);
        FirstExtra(schema, a, b, picks, r);
    }
  }

  lemma FirstField(schema: Schema, a: Message, b: Message, picks: seq<Pick>, i: nat)
    requires |a.values| == |schema| == |b.values| && i < |schema|
    requires picks != [] && picks[0] == Field(i) && Field(i) !in picks[1..]
    ensures var a' := a.(values := a.values[i := MergeValue(schema[i].kind, a.values[i], b.values[i])]);
            Absorbed(schema, a, b, picks) == Absorbed(schema, a', b, picks[1..])
    ensures PicksGoodText(b, picks) <==> GoodText(b.values[i]) && PicksGoodText(b, picks[1..])
  {
    var a' := a.(values := a.values[i := MergeValue(schema[i].kind, a.values[i], b.values[i])]);
    assert picks == [picks[0]] + picks[1..];
    assert Absorbed(schema, a, b, picks).values == Absorbed(schema, a', b, picks[1..]).values;
  }

  lemma FirstExtra(schema: Schema, a: Message, b: Message, picks: seq<Pick>, r: Record)
    requires |a.values| == |schema| == |b.values| && picks != [] && picks[0] == Extra(r)
    ensures Absorbed(schema, a, b, picks) == Absorbed(schema, a.(unknown := a.unknown + [r]), b, picks[1..])
    ensures PicksGoodText(b, picks) <==> PicksGoodText(b, picks[1..])
  {
    var a' := a.(unknown := a.unknown + [r]);
    assert picks == [picks[0]] + picks[1..];
    assert Absorbed(schema, a, b, picks).values == Absorbed(schema, a', b, picks[1..]).values;
    assert a.unknown + ([r] + Extras(picks[1..])) == a.unknown + [r] + Extras(picks[1..]);
  }

  // ---- Any order, schema order -----------------------------------------------------------------

  /** All non-default fields are written, and the unknown ones in their order. */
  predicate Complete(b: Message, picks: seq<Pick>) {
    && (forall i :: 0 <= i < |b.values| && !IsDefault(b.values[i]) ==> Field(i) in picks)
    && Extras(picks) == b.unknown
  }

  /** The records of `b`, in any order that keeps its unknown fields in sequence, parse into `a` as the
      merge of the two, exactly when all strings of `b` are valid. */
  lemma AnyOrderMerges(schema: Schema, a: Message, b: Message, depth: nat, picks: seq<Pick>)
    requires GoodSchema(schema) && |a.values| == |schema| && GoodMessage(schema, b, depth)
    requires GoodPicks(schema, b, depth, picks) && Complete(b, picks)
    ensures ParseInto(schema, a, Encode(PickRecords(schema, b, depth, picks)), depth) ==
            if AllGoodText(b) then Some(Merge(schema, a, b)) else None
    decreases b, 2
  {
    var rs := PickRecords(schema, b, depth, picks);
    FoldPicks(schema, a, b, depth, picks);
    RecordsRoundTrip(rs, [], depth, 0);
    assert Encode(rs) + [] == Encode(rs) && rs + [] == rs;
    assert Absorbed(schema, a, b, picks).values == Merge(schema, a, b).values;
    CompleteText(schema, b, depth, picks);
  }

  lemma CompleteText(schema: Schema, b: Message, depth: nat, picks: seq<Pick>)
    requires GoodPicks(schema, b, depth, picks) && Complete(b, picks)
    requires GoodMessage(schema, b, depth)
    ensures PicksGoodText(b, picks) <==> AllGoodText(b)
  {
    if PicksGoodText(b, picks) {
      forall i | 0 <= i < |b.values| ensures GoodText(b.values[i]) {
        if IsDefault(b.values[i]) { } else { assert Field(i) in picks; }
      }
    }
  }

  function FieldPicks(values: seq<Value>, i: nat): seq<Pick>
    decreases |values| - i
  {
    if i < |values| then (if IsDefault(values[i]) then [] else [Field(i)]) + FieldPicks(values, i + 1) else []
  }

  function ExtraPicks(rs: seq<Record>): (picks: seq<Pick>)
    ensures |picks| == |rs| && forall k :: 0 <= k < |rs| ==> picks[k] == Extra(rs[k])
  {
    seq(|rs|, k requires 0 <= k < |rs| => Extra(rs[k]))
  }

  /** `picks` are the fields from `i` on that are written, and `rs` their records. */
  ghost predicate PicksFrom(schema: Schema, b: Message, i: nat, picks: seq<Pick>, rs: seq<Record>)
    requires |b.values| == |schema|
  {
    && (forall p <- picks :: p.Field? && i <= p.i < |schema| && !IsDefault(b.values[p.i]))
    && (forall j, k :: 0 <= j < k < |picks| ==> picks[j] != picks[k])
    && (forall k :: i <= k < |schema| && !IsDefault(b.values[k]) ==> Field(k) in picks)
    && |rs| == |picks| && forall k :: 0 <= k < |picks| ==> rs[k] == PickRecord(schema, b, picks[k])
  }

  lemma OnePickMore(schema: Schema, b: Message, i: nat, picks: seq<Pick>, rs: seq<Record>)
    requires |b.values| == |schema| && i < |schema| && PicksFrom(schema, b, i + 1, picks, rs)
    ensures PicksFrom(schema, b, i, (if IsDefault(b.values[i]) then [] else [Field(i)]) + picks,
                      FieldRecords(schema[i], b.values[i]) + rs)
  {
  }

  lemma {:induction false} FieldPicksAreRecords(schema: Schema, b: Message, i: nat)
    requires |b.values| == |schema| && i <= |schema|
    ensures PicksFrom(schema, b, i, FieldPicks(b.values, i), RecordsFrom(schema, b.values, i))
    decreases |schema| - i
  {
    if i < |schema| {
      FieldPicksAreRecords(schema, b, i + 1);
      OnePickMore(schema, b, i, FieldPicks(b.values, i + 1), RecordsFrom(schema, b.values, i + 1));
    }
  }

  lemma {:induction false} ExtrasOf(fields: seq<Pick>, rs: seq<Record>)
    requires forall p <- fields :: p.Field?
    ensures Extras(fields + ExtraPicks(rs)) == rs
    decreases |fields| + |rs|
  {
    var picks := fields + ExtraPicks(rs);
    if fields != [] {
      assert fields[0] in fields && picks[0] == fields[0] && picks[1..] == fields[1..] + ExtraPicks(rs);
      ExtrasOf(fields[1..], rs);
    } else if rs != [] {
      assert picks[1..] == [] + ExtraPicks(rs[1..]);
      ExtrasOf([], rs[1..]);
    }
  }

  function SchemaOrder(b: Message): seq<Pick> {
    FieldPicks(b.values, 0) + ExtraPicks(b.unknown)
  }

  lemma SchemaOrderIsGood(schema: Schema, b: Message, depth: nat)
    requires GoodMessage(schema, b, depth)
    ensures GoodPicks(schema, b, depth, SchemaOrder(b))
  {
    var fields, picks := FieldPicks(b.values, 0), SchemaOrder(b);
    FieldPicksAreRecords(schema, b, 0);
    forall k | 0 <= k < |picks| ensures GoodPick(schema, b, depth, picks[k]) {
      if k < |fields| {
        assert picks[k] == fields[k] && fields[k] in fields;
      } else {
        assert picks[k] == Extra(b.unknown[k - |fields|]) && b.unknown[k - |fields|] in b.unknown;
      }
    }
  }

  lemma SchemaOrderIsSerialization(schema: Schema, b: Message, depth: nat)
    requires GoodMessage(schema, b, depth)
    ensures GoodPicks(schema, b, depth, SchemaOrder(b)) && Complete(b, SchemaOrder(b))
    ensures PickRecords(schema, b, depth, SchemaOrder(b)) == Records(schema, b)
  {
    SchemaOrderIsGood(schema, b, depth);
    SchemaOrderIsComplete(schema, b);
    var picks := SchemaOrder(b);
    FieldPicksAreRecords(schema, b, 0);
    RecordsOfPicks(schema, b, FieldPicks(b.values, 0), RecordsFrom(schema, b.values, 0));
    assert forall k :: 0 <= k < |picks| ==> PickRecords(schema, b, depth, picks)[k] == Records(schema, b)[k];
  }

  lemma RecordsOfPicks(schema: Schema, b: Message, fields: seq<Pick>, rs: seq<Record>)
    requires |b.values| == |schema| && |rs| == |fields|
    requires forall p <- fields :: p.Field? && p.i < |schema|
    requires forall k :: 0 <= k < |fields| ==> fields[k] in fields && rs[k] == PickRecord(schema, b, fields[k])
    ensures forall k :: 0 <= k < |fields| + |b.unknown| ==>
              (fields + ExtraPicks(b.unknown))[k].Field? ==> (fields + ExtraPicks(b.unknown))[k].i < |schema|
    ensures forall k :: 0 <= k < |fields| + |b.unknown| ==>
              (rs + b.unknown)[k] == PickRecord(schema, b, (fields + ExtraPicks(b.unknown))[k])
  {
  }

  lemma SchemaOrderIsComplete(schema: Schema, b: Message)
    requires |b.values| == |schema|
    ensures Complete(b, SchemaOrder(b))
  {
    FieldPicksAreRecords(schema, b, 0);
    ExtrasOf(FieldPicks(b.values, 0), b.unknown);
  }

  /** Parsing the serialization of `b` into `a` merges `b` into `a`. */
  lemma {:induction false} ParseMerges(schema: Schema, a: Message, b: Message, depth: nat)
    requires GoodSchema(schema) && |a.values| == |schema| && GoodMessage(schema, b, depth)
    ensures ParseInto(schema, a, Serialize(schema, b), depth) ==
            if AllGoodText(b) then Some(Merge(schema, a, b)) else None
    decreases b, 3
  {
    SchemaOrderIsSerialization(schema, b, depth);
    AnyOrderMerges(schema, a, b, depth, SchemaOrder(b));
  }

  lemma MergeAt(schema: Schema, a: Message, b: Message, i: nat)
    requires |a.values| == |schema| == |b.values| && i < |schema|
    ensures Merge(schema, a, b).values[i] == MergeValue(schema[i].kind, a.values[i], b.values[i])
  {
  }

  // ---- Round trip and concatenation ------------------------------------------------------------

  lemma {:induction false} MergeIntoDefault(schema: Schema, b: Message, depth: nat)
    requires GoodMessage(schema, b, depth)
    ensures Merge(schema, Default(schema), b) == b
    decreases b
  {
    forall i | 0 <= i < |schema|
      ensures MergeValue(schema[i].kind, DefaultValue(schema[i].kind), b.values[i]) == b.values[i]
    {
      if schema[i].kind.MessageKind? && b.values[i].message.Some? {
        MergeIntoDefault(schema[i].kind.fields, b.values[i].message.value, depth - 1);
      }
    }
    assert Merge(schema, Default(schema), b).values == b.values;
  }

  /** A message survives serialization exactly when its strings are valid UTF-8: serialization does not
      check them, parsing does. */
  lemma RoundTrip(schema: Schema, m: Message)
    requires GoodSchema(schema) && GoodMessage(schema, m, MAX_DEPTH)
    ensures Parse(schema, Serialize(schema, m)) == if AllGoodText(m) then Some(m) else None
  {
    ParseMerges(schema, Default(schema), m, MAX_DEPTH);
    MergeIntoDefault(schema, m, MAX_DEPTH);
  }

  lemma {:induction false} FoldAppend(schema: Schema, m: Message, rs: seq<Record>, more: seq<Record>, depth: nat)
    requires |m.values| == |schema|
    ensures Fold(schema, m, rs + more, depth) ==
            match Fold(schema, m, rs, depth) case None => None case Some(m1) => Fold(schema, m1, more, depth)
    decreases |rs|
  {
    if rs == [] {
      assert rs + more == more;
    } else {
      assert (rs + more)[1..] == rs[1..] + more;
      var next := Apply(schema, m, rs[0], depth);
      if next.Some? { FoldAppend(schema, next.value, rs[1..], more, depth); }
    }
  }

  /** Parsing a concatenation of two serializations gives the merge of the two messages. */
  lemma ConcatenationMerges(schema: Schema, a: Message, b: Message)
    requires GoodSchema(schema) && GoodMessage(schema, a, MAX_DEPTH) && GoodMessage(schema, b, MAX_DEPTH)
    requires AllGoodText(a) && AllGoodText(b)
    ensures Parse(schema, Serialize(schema, a) + Serialize(schema, b)) == Some(Merge(schema, a, b))
  {
    var ra, rb := Records(schema, a), Records(schema, b);
    RoundTrip(schema, a);
    ParseMerges(schema, a, b, MAX_DEPTH);
    RecordsEncodable(schema, a, MAX_DEPTH);
    RecordsEncodable(schema, b, MAX_DEPTH);
    DecodeRecords(ra, MAX_DEPTH);
    DecodeRecords(rb, MAX_DEPTH);
    DecodeRecords(ra + rb, MAX_DEPTH);
    EncodeAppend(ra, rb);
    FoldAppend(schema, Default(schema), ra, rb, MAX_DEPTH);
  }

  lemma DecodeRecords(rs: seq<Record>, depth: nat)
    requires forall r <- rs :: Encodable(r, depth)
    ensures Decode(Encode(rs), depth, 0) == Read(rs, |Encode(rs)|)
  {
    RecordsRoundTrip(rs, [], depth, 0);
    assert Encode(rs) + [] == Encode(rs) && rs + [] == rs;
  }

  lemma RecordsEncodable(schema: Schema, b: Message, depth: nat)
    requires GoodSchema(schema) && GoodMessage(schema, b, depth)
    ensures forall r <- Records(schema, b) :: Encodable(r, depth)
  {
    FieldPicksAreRecords(schema, b, 0);
    forall k | 0 <= k < |RecordsFrom(schema, b.values, 0)|
      ensures Encodable(RecordsFrom(schema, b.values, 0)[k], depth)
    {
      var pick := FieldPicks(b.values, 0)[k];
      assert schema[pick.i] in schema;
      FieldRoundTrip(schema[pick.i], b.values[pick.i], b.values[pick.i], depth);
    }
  }

  // ---- What is not written --------------------------------------------------------------------------------

  /** A field is written exactly if it does not hold the default of its type. */
  lemma WrittenExactly(f: FieldSpec, v: Value, depth: nat)
    requires GoodValue(f.kind, v, depth)
    ensures FieldRecords(f, v) == [] <==> v == DefaultValue(f.kind)
  {
  }

  lemma {:induction false} NothingFrom(schema: Schema, values: seq<Value>, i: nat, depth: nat)
    requires |values| == |schema| && forall k :: 0 <= k < |schema| ==> GoodValue(schema[k].kind, values[k], depth)
    ensures RecordsFrom(schema, values, i) == [] <==>
            forall k :: i <= k < |schema| ==> values[k] == DefaultValue(schema[k].kind)
    decreases |schema| - i
  {
    if i < |schema| {
      WrittenExactly(schema[i], values[i], depth);
      NothingFrom(schema, values, i + 1, depth);
    }
  }

  /** Only the message with default values and no unknown fields serializes to nothing. */
  lemma SilentExactly(schema: Schema, m: Message, depth: nat)
    requires GoodMessage(schema, m, depth)
    ensures Serialize(schema, m) == [] <==> m == Default(schema)
  {
    NothingFrom(schema, m.values, 0, depth);
    var rs := Records(schema, m);
    assert Serialize(schema, m) == [] <==> rs == [];
    assert m.values == Default(schema).values <==>
      forall k :: 0 <= k < |schema| ==> m.values[k] == DefaultValue(schema[k].kind);
  }
}
