/** Messages on the wire: a message is a sequence of items, known ones in any order and any number, unknown
    ones in between. Decoding folds the items into the message, one after the other. */
module Wire {
  import opened Words
  import opened Varints
  import opened Skips

  datatype Kind = AsVarint | AsBytes

  /** The fields a message knows, by number. */
  type Schema = map<int, Kind>

  datatype Item =
    | Number(field: int, value: U64)
    | Chunk(field: int, body: Bytes)
    | Unknown(raw: Bytes)

  // ---- Writing ----

  function Encode(item: Item): Bytes
    requires item.Unknown? || item.field >= 0
  {
    match item
    case Number(field, value) => Varint(8 * field) + Varint(value)
    case Chunk(field, body) => Varint(8 * field + 2) + Varint(|body|) + body
    case Unknown(raw) => raw
  }

  function EncodeAll(items: seq<Item>): Bytes
    requires forall i :: i in items ==> i.Unknown? || i.field >= 0
  {
    if items == [] then [] else Encode(items[0]) + EncodeAll(items[1..])
  }

  // ---- Reading ----

  /** The field number of a tag: int32(wire >> 3). */
  function FieldNum(wire: U64): int {
    (wire / 8 + 0x8000_0000) % 0x1_0000_0000 - 0x8000_0000
  }

  /** It is the tag without its three low bits, reduced to a signed 32-bit word. */
  lemma FieldNumIs(wire: U64)
    ensures -0x8000_0000 <= FieldNum(wire) < 0x8000_0000
    ensures (FieldNum(wire) - Shr(wire, 3)) % 0x1_0000_0000 == 0
  {
    HighBits(wire);
    SignedWord(wire / 8);
    hide Shr;
  }

  lemma SignedWord(x: nat)
    ensures ((x + 0x8000_0000) % 0x1_0000_0000 - 0x8000_0000 - x) % 0x1_0000_0000 == 0
  {
  }

  /** A length-delimited body at pos. The bounds are those of the exact sum: the source computes it in 64
      bits and looks for a negative result. */
  function ReadChunk(data: Bytes, pos: nat): (r: Decoded<(Bytes, nat)>)
    ensures r.Good? ==> pos < r.value.1 <= |data| && |r.value.0| <= |data|
  {
    match ReadVarint(data, pos)
    case Bad(e) => Bad(e)
    case Good((length, i)) =>
      if length >= TWO_63 || i + length >= TWO_63 then Bad(InvalidLength)
      else if i + length > |data| then Bad(UnexpectedEOF)
      else Good((data[i..i + length], i + length))
  }

  /** A field the message does not know, skipped whole. */
  function ReadUnknown(data: Bytes, pos: nat): (r: Decoded<(Item, nat)>)
    requires pos <= |data|
    ensures r.Good? ==> pos < r.value.1 <= |data| && r.value.0.Unknown?
  {
    match Skip(data[pos..])
    case Bad(e) => Bad(e)
    case Good(n) =>
      if pos + n >= TWO_63 then Bad(InvalidLength)
      else if pos + n > |data| then Bad(UnexpectedEOF)
      else Good((Unknown(data[pos..pos + n]), pos + n))
  }

  /** The next item of a message with the given schema, and the position behind it. */
  function NextItem(data: Bytes, pos: nat, schema: Schema): (r: Decoded<(Item, nat)>)
    requires pos <= |data|
    ensures r.Good? ==> pos < r.value.1 <= |data|
  {
    match ReadVarint(data, pos)
    case Bad(e) => Bad(e)
    case Good((wire, i)) => Behind(data, pos, wire, i, schema)
  }

  /** What follows a tag that was read at pos and ends at i. */
  function Behind(data: Bytes, pos: nat, wire: U64, i: nat, schema: Schema): (r: Decoded<(Item, nat)>)
    requires pos < i <= |data|
    ensures r.Good? ==> pos < r.value.1 <= |data|
  {
    var field := FieldNum(wire);
    if wire % 8 == 4 then Bad(EndGroupForNonGroup)
    else if field <= 0 then Bad(IllegalTag)
    else if field !in schema then ReadUnknown(data, pos)
    else if schema[field] == AsVarint then
      if wire % 8 != 0 then Bad(WrongWireType)
      else
        match ReadVarint(data, i)
        case Bad(e) => Bad(e)
        case Good((value, next)) => Good((Number(field, value), next))
    else if wire % 8 != 2 then Bad(WrongWireType)
    else
      match ReadChunk(data, i)
      case Bad(e) => Bad(e)
      case Good((body, next)) => Good((Chunk(field, body), next))
  }

  /** The decoding loop: takes items off the input and applies each to the message. */
  function Fold<M>(data: Bytes, pos: nat, m: M, schema: Schema, apply: (M, Item) -> Decoded<M>): Decoded<M>
    requires pos <= |data|
    decreases |data| - pos
  {
    if pos == |data| then Good(m)
    else
      match NextItem(data, pos, schema)
      case Bad(e) => Bad(e)
      case Good((item, next)) =>
        match apply(m, item)
        case Bad(e) => Bad(e)
        case Good(m') => Fold(data, next, m', schema, apply)
  }

  function ApplyAll<M>(m: M, items: seq<Item>, apply: (M, Item) -> Decoded<M>): Decoded<M>
    decreases |items|
  {
    if items == [] then Good(m)
    else
      match apply(m, items[0])
      case Bad(e) => Bad(e)
      case Good(m') => ApplyAll(m', items[1..], apply)
  }

  lemma {:induction false} ApplyAppend<M>(m: M, a: seq<Item>, b: seq<Item>, apply: (M, Item) -> Decoded<M>)
    requires ApplyAll(m, a, apply).Good?
    ensures ApplyAll(m, a + b, apply) == ApplyAll(ApplyAll(m, a, apply).value, b, apply)
    decreases |a|
  {
    if a == [] {
      assert a + b == b;
    } else {
      assert (a + b)[0] == a[0] && (a + b)[1..] == a[1..] + b;
      ApplyAppend(apply(m, a[0]).value, a[1..], b, apply);
    }
  }

  // ---- Reading depends only on what is read ----

  lemma {:induction false} SkipLocal(a: Bytes, b: Bytes, pos: nat, depth: nat)
    requires SkipFrom(a, pos, depth).Good? && SkipFrom(a, pos, depth).value <= |a|
    ensures SkipFrom(a + b, pos, depth) == SkipFrom(a, pos, depth)
    decreases |a| - pos
  {
    var (next, d) := Token(a, pos, depth).value;
    TokenLocal(a, b, pos, depth);
    hide Token;
    if d > 0 { SkipLocal(a, b, next, d); }
  }

  lemma TokenLocal(a: Bytes, b: Bytes, pos: nat, depth: nat)
    requires Token(a, pos, depth).Good? && Token(a, pos, depth).value.0 <= |a|
    ensures Token(a + b, pos, depth) == Token(a, pos, depth)
  {
    var (wire, i) := ReadVarint(a, pos).value;
    ReadLocal(a, b, pos);
    if wire % 8 == 0 { ReadLocal(a, b, i); }
    if wire % 8 == 2 { ReadLocal(a, b, i); }
  }

  lemma ReadLocal(a: Bytes, b: Bytes, pos: nat)
    ensures ReadVarint(a, pos).Good? ==> ReadVarint(a + b, pos) == ReadVarint(a, pos)
    ensures Scan(a, pos, 0).Good? ==> Scan(a + b, pos, 0) == Scan(a, pos, 0)
  {
    if Scan(a, pos, 0).Good? {
      var end := Scan(a, pos, 0).value;
      ScanFinds(a, pos, 0, end);
      ScanFinds(a + b, pos, 0, end);
      assert (a + b)[pos..end] == a[pos..end];
    }
  }

  lemma ChunkLocal(a: Bytes, b: Bytes, pos: nat)
    requires ReadChunk(a, pos).Good?
    ensures ReadChunk(a + b, pos) == ReadChunk(a, pos)
  {
    ReadLocal(a, b, pos);
    var (length, i) := ReadVarint(a, pos).value;
    assert (a + b)[i..i + length] == a[i..i + length];
  }

  lemma UnknownLocal(a: Bytes, b: Bytes, pos: nat)
    requires pos <= |a| && ReadUnknown(a, pos).Good?
    ensures ReadUnknown(a + b, pos) == ReadUnknown(a, pos)
  {
    var n := Skip(a[pos..]).value;
    assert (a + b)[pos..] == a[pos..] + b;
    SkipLocal(a[pos..], b, 0, 0);
    assert (a + b)[pos..pos + n] == a[pos..pos + n];
  }

  /** An item is read the same whatever follows it. */
  lemma ItemLocal(a: Bytes, b: Bytes, pos: nat, schema: Schema)
    requires pos <= |a| && NextItem(a, pos, schema).Good?
    ensures NextItem(a + b, pos, schema) == NextItem(a, pos, schema)
  {
    ReadLocal(a, b, pos);
    var (wire, i) := ReadVarint(a, pos).value;
    if FieldNum(wire) !in schema {
      UnknownLocal(a, b, pos);
    } else if schema[FieldNum(wire)] == AsVarint {
      ReadLocal(a, b, i);
    } else {
      ChunkLocal(a, b, i);
    }
  }

  /** Equal answers, or both refusals. */
  ghost predicate Agree<M>(x: Decoded<M>, y: Decoded<M>) {
    x == y || (x.Bad? && y.Bad?)
  }

  lemma ReadShift(a: Bytes, b: Bytes, pos: nat)
    requires |a + b| < TWO_63 && pos <= |b|
    ensures Scan(a + b, |a| + pos, 0) == (match Scan(b, pos, 0) case Good(end) => Good(|a| + end) case Bad(e) => Bad(e))
    ensures ReadVarint(a + b, |a| + pos) ==
      (match ReadVarint(b, pos) case Good((v, end)) => Good((v, |a| + end)) case Bad(e) => Bad(e))
  {
    ScanShift(a, b, pos, 0);
    if Scan(b, pos, 0).Good? {
      var end := Scan(b, pos, 0).value;
      assert (a + b)[|a| + pos..|a| + end] == b[pos..end];
    }
  }

  lemma {:induction false} ScanShift(a: Bytes, b: Bytes, pos: nat, seen: nat)
    requires pos <= |b|
    ensures Scan(a + b, |a| + pos, seen) == (match Scan(b, pos, seen) case Good(end) => Good(|a| + end) case Bad(e) => Bad(e))
    decreases |b| - pos
  {
    if seen < 10 && pos < |b| { ScanShift(a, b, pos + 1, seen + 1); }
  }

  /** An item is read the same wherever it stands. */
  lemma ItemShift(a: Bytes, b: Bytes, pos: nat, schema: Schema)
    requires pos <= |b| && |a + b| < TWO_63
    ensures Agree(NextItem(a + b, |a| + pos, schema),
      match NextItem(b, pos, schema) case Good((item, next)) => Good((item, |a| + next)) case Bad(e) => Bad(e))
  {
    ReadShift(a, b, pos);
    if ReadVarint(b, pos).Good? {
      var (wire, i) := ReadVarint(b, pos).value;
      BehindShift(a, b, pos, wire, i, schema);
    }
    hide ReadVarint, Behind;
  }

  lemma BehindShift(a: Bytes, b: Bytes, pos: nat, wire: U64, i: nat, schema: Schema)
    requires pos < i <= |b| && |a + b| < TWO_63
    ensures Agree(Behind(a + b, |a| + pos, wire, |a| + i, schema),
      match Behind(b, pos, wire, i, schema) case Good((item, next)) => Good((item, |a| + next)) case Bad(e) => Bad(e))
  {
    hide ReadVarint, ReadChunk, ReadUnknown, FieldNum;
    ReadShift(a, b, i);
    ChunkShift(a, b, i);
    UnknownShift(a, b, pos);
  }

  lemma ChunkShift(a: Bytes, b: Bytes, pos: nat)
    requires pos <= |b| && |a + b| < TWO_63
    ensures Agree(ReadChunk(a + b, |a| + pos),
      match ReadChunk(b, pos) case Good((body, next)) => Good((body, |a| + next)) case Bad(e) => Bad(e))
  {
    ReadShift(a, b, pos);
    if ReadVarint(b, pos).Good? {
      var (length, j) := ReadVarint(b, pos).value;
      if j + length <= |b| { assert (a + b)[|a| + j..|a| + j + length] == b[j..j + length]; }
    }
  }

  lemma UnknownShift(a: Bytes, b: Bytes, pos: nat)
    requires pos <= |b| && |a + b| < TWO_63
    ensures Agree(ReadUnknown(a + b, |a| + pos),
      match ReadUnknown(b, pos) case Good((item, next)) => Good((item, |a| + next)) case Bad(e) => Bad(e))
  {
    assert (a + b)[|a| + pos..] == b[pos..];
    if Skip(b[pos..]).Good? {
      var n := Skip(b[pos..]).value;
      if pos + n <= |b| { assert (a + b)[|a| + pos..|a| + pos + n] == b[pos..pos + n]; }
    }
  }

  // ---- Concatenated messages ----

  lemma {:induction false} FoldPrefix<M>(a: Bytes, b: Bytes, pos: nat, m: M, schema: Schema, apply: (M, Item) -> Decoded<M>)
    requires pos <= |a| && Fold(a, pos, m, schema, apply).Good?
    ensures Fold(a + b, pos, m, schema, apply) == Fold(a + b, |a|, Fold(a, pos, m, schema, apply).value, schema, apply)
    decreases |a| - pos
  {
    hide NextItem;
    if pos < |a| {
      ItemLocal(a, b, pos, schema);
      var (item, next) := NextItem(a, pos, schema).value;
      FoldPrefix(a, b, next, apply(m, item).value, schema, apply);
    }
  }

  lemma {:induction false} FoldShift<M>(a: Bytes, b: Bytes, pos: nat, m: M, schema: Schema, apply: (M, Item) -> Decoded<M>)
    requires pos <= |b| && |a + b| < TWO_63
    ensures Agree(Fold(a + b, |a| + pos, m, schema, apply), Fold(b, pos, m, schema, apply))
    decreases |b| - pos
  {
    hide NextItem;
    if pos < |b| {
      ItemShift(a, b, pos, schema);
      if NextItem(b, pos, schema).Good? {
        var (item, next) := NextItem(b, pos, schema).value;
        if apply(m, item).Good? { FoldShift(a, b, next, apply(m, item).value, schema, apply); }
      }
    }
  }

  /** Decoding one encoding followed by another continues from the message the first one left. */
  lemma FoldConcat<M>(a: Bytes, b: Bytes, m: M, schema: Schema, apply: (M, Item) -> Decoded<M>)
    requires |a + b| < TWO_63 && Fold(a, 0, m, schema, apply).Good?
    ensures Agree(Fold(a + b, 0, m, schema, apply), Fold(b, 0, Fold(a, 0, m, schema, apply).value, schema, apply))
  {
    FoldPrefix(a, b, 0, m, schema, apply);
    FoldShift(a, b, 0, Fold(a, 0, m, schema, apply).value, schema, apply);
  }

  // ---- Items come back as they were written ----

  /** An unknown field as some other program may have written it: any well-formed field, groups included,
      whose number the message does not know. */
  ghost predicate IsForeign(raw: Bytes, schema: Schema) {
    exists f :: WellFormed(f) && Flat(f) == raw && FieldNum(WrapU64(Value(f.tag))) > 0 && FieldNum(WrapU64(Value(f.tag))) !in schema
  }

  ghost predicate Fits(item: Item, schema: Schema) {
    match item
    case Number(field, value) => 0 < field < 0x2000_0000 && field in schema && schema[field] == AsVarint
    case Chunk(field, body) => 0 < field < 0x2000_0000 && field in schema && schema[field] == AsBytes
    case Unknown(raw) => IsForeign(raw, schema)
  }

  ghost predicate AllFit(items: seq<Item>, schema: Schema) {
    forall i :: i in items ==> Fits(i, schema)
  }

  lemma TagReads(field: int, wireType: nat)
    requires 0 < field < 0x2000_0000 && wireType < 8
    ensures 8 * field + wireType < TWO_64
    ensures FieldNum(8 * field + wireType) == field && (8 * field + wireType) % 8 == wireType
  {
  }

  lemma ItemReadsBack(item: Item, schema: Schema)
    requires Fits(item, schema) && |Encode(item)| < TWO_63
    ensures Encode(item) != [] && NextItem(Encode(item), 0, schema) == Good((item, |Encode(item)|))
  {
    match item
    case Number(field, value) => NumberReadsBack(field, value, schema);
    case Chunk(field, body) => ChunkReadsBack(field, body, schema);
    case Unknown(raw) => UnknownReadsBack(raw, schema);
  }

  lemma NumberReadsBack(field: int, value: U64, schema: Schema)
    requires Fits(Number(field, value), schema)
    ensures var data := Encode(Number(field, value));
      data != [] && NextItem(data, 0, schema) == Good((Number(field, value), |data|))
  {
    TagReads(field, 0);
    VarintOfWord(8 * field);
    var tag, word := Varint(8 * field), Varint(value);
    var data := tag + word;
    ReadsWord(data, 0, 8 * field);
    ReadsWord(data, |tag|, value);
    hide ReadVarint, Varint, FieldNum;
  }

  lemma ChunkReadsBack(field: int, body: Bytes, schema: Schema)
    requires Fits(Chunk(field, body), schema) && |Encode(Chunk(field, body))| < TWO_63
    ensures var data := Encode(Chunk(field, body));
      data != [] && NextItem(data, 0, schema) == Good((Chunk(field, body), |data|))
  {
    hide ReadVarint, Varint, FieldNum, Value, ReadChunk, At, IsVarint;
    TagReads(field, 2);
    VarintOfWord(8 * field + 2);
    var tag := Varint(8 * field + 2);
    var data := Encode(Chunk(field, body));
    assert data == tag + (Varint(|body|) + body);
    WholeAt(data);
    AtSplit(data, 0, tag, Varint(|body|) + body);
    ReadsAt(data, 0, tag);
    ReadsChunk(data, |tag|, body);
  }

  lemma WholeAt(data: Bytes)
    ensures At(data, 0, data)
  {
  }

  lemma ReadsChunk(data: Bytes, pos: nat, body: Bytes)
    requires At(data, pos, Varint(|body|) + body) && |data| < TWO_63
    ensures ReadChunk(data, pos) == Good((body, pos + |Varint(|body|)| + |body|))
  {
    hide ReadVarint, Varint, Value, IsVarint, Scan;
    AtSplit(data, pos, Varint(|body|), body);
    VarintOfWord(|body|);
    ReadsAt(data, pos, Varint(|body|));
  }

  lemma UnknownReadsBack(raw: Bytes, schema: Schema)
    requires IsForeign(raw, schema) && |raw| < TWO_63
    ensures raw != [] && NextItem(raw, 0, schema) == Good((Unknown(raw), |raw|))
  {
    var f :| WellFormed(f) && Flat(f) == raw && FieldNum(WrapU64(Value(f.tag))) > 0 && FieldNum(WrapU64(Value(f.tag))) !in schema;
    FlatNonEmpty(f);
    assert raw[..|raw|] == raw && raw[0..] == raw && raw[0..0 + |raw|] == raw;
    SkipExact(raw, |raw|);
    TagFirst(raw, 0, f);
    hide ReadVarint, Skip, FieldNum, Value, WellFormed, Flat;
  }

  /** A field starts with its tag, and no tag closes a group. */
  lemma TagFirst(data: Bytes, pos: nat, f: Field)
    requires WellFormed(f) && At(data, pos, Flat(f))
    ensures |f.tag| <= |Flat(f)| && IsVarint(f.tag) && At(data, pos, f.tag) && WrapU64(Value(f.tag)) % 8 != 4
    ensures ReadVarint(data, pos) == Good((WrapU64(Value(f.tag)), pos + |f.tag|))
  {
    hide At, ReadVarint, Value, FlatAll, AllWellFormed;
    var rest := Flat(f)[|f.tag|..];
    assert Flat(f) == f.tag + rest;
    AtSplit(data, pos, f.tag, rest);
    ReadsAt(data, pos, f.tag);
  }

  /** Decoding the bytes of any fitting items applies exactly those items. */
  lemma {:induction false} FoldItems<M>(items: seq<Item>, m: M, schema: Schema, apply: (M, Item) -> Decoded<M>)
    requires AllFit(items, schema) && |EncodeAll(items)| < TWO_63
    requires ApplyAll(m, items, apply).Good?
    ensures Fold(EncodeAll(items), 0, m, schema, apply) == ApplyAll(m, items, apply)
    decreases |items|
  {
    if items != [] {
      var item, rest := items[0], items[1..];
      assert forall i :: i in rest ==> i in items;
      assert EncodeAll(items) == Encode(item) + EncodeAll(rest);
      assert ApplyAll(m, items, apply) == ApplyAll(apply(m, item).value, rest, apply);
      hide ApplyAll, EncodeAll, Encode, Fold, Fits;
      FoldOne(item, m, schema, apply);
      FoldConcat(Encode(item), EncodeAll(rest), m, schema, apply);
      FoldItems(rest, apply(m, item).value, schema, apply);
    }
  }

  lemma FoldOne<M>(item: Item, m: M, schema: Schema, apply: (M, Item) -> Decoded<M>)
    requires Fits(item, schema) && |Encode(item)| < TWO_63
    ensures Fold(Encode(item), 0, m, schema, apply) == apply(m, item)
  {
    ItemReadsBack(item, schema);
    hide NextItem, Encode, Fits;
  }

  // ---- Unknown fields ----

  function Known(items: seq<Item>): seq<Item> {
    if items == [] then [] else (if items[0].Unknown? then [] else [items[0]]) + Known(items[1..])
  }

  lemma {:induction false} KnownApply<M>(items: seq<Item>, m: M, apply: (M, Item) -> Decoded<M>)
    requires forall m, raw :: apply(m, Unknown(raw)) == Good(m)
    ensures ApplyAll(m, Known(items), apply) == ApplyAll(m, items, apply)
    decreases |items|
  {
    if items != [] {
      if items[0].Unknown? {
        assert apply(m, Unknown(items[0].raw)) == Good(m);
        assert Known(items) == Known(items[1..]);
        KnownApply(items[1..], m, apply);
      } else {
        assert Known(items)[1..] == Known(items[1..]);
        if apply(m, items[0]).Good? { KnownApply(items[1..], apply(m, items[0]).value, apply); }
      }
    }
  }

  lemma {:induction false} KnownFits(items: seq<Item>, schema: Schema)
    requires AllFit(items, schema)
    ensures AllFit(Known(items), schema) && |EncodeAll(Known(items))| <= |EncodeAll(items)|
  {
    if items != [] {
      KnownFits(items[1..], schema);
      if !items[0].Unknown? { assert Known(items)[1..] == Known(items[1..]); } else { assert Known(items) == Known(items[1..]); }
    }
  }

  /** Unknown fields anywhere between the fields of an encoding do not change the decoded message. */
  lemma UnknownIgnored<M>(items: seq<Item>, m: M, schema: Schema, apply: (M, Item) -> Decoded<M>)
    requires AllFit(items, schema) && |EncodeAll(items)| < TWO_63
    requires forall m, raw :: apply(m, Unknown(raw)) == Good(m)
    requires ApplyAll(m, Known(items), apply).Good?
    ensures AllFit(Known(items), schema)
    ensures Fold(EncodeAll(items), 0, m, schema, apply) == Fold(EncodeAll(Known(items)), 0, m, schema, apply)
  {
    KnownFits(items, schema);
    KnownApply(items, m, apply);
    FoldItems(items, m, schema, apply);
    FoldItems(Known(items), m, schema, apply);
  }
}
