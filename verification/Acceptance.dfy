/** Exactly which inputs a decoding loop accepts, and what it makes of them: concatenations of well-formed
    fields, each either unknown to the message or of the wire type the message wants, however long their
    varints are. */
module Acceptance {
  import opened Words
  import opened Varints
  import opened Skips
  import opened Wire

  function Num(f: Field): int {
    FieldNum(WrapU64(Value(f.tag)))
  }

  /** A field a message with this schema accepts. */
  predicate Takes(f: Field, schema: Schema) {
    && WellFormed(f) && Num(f) > 0
    && (Num(f) in schema ==> if schema[Num(f)] == AsVarint then f.Scalar? else f.Delimited?)
  }

  predicate TakesAll(fs: seq<Field>, schema: Schema) {
    fs == [] || (Takes(fs[0], schema) && TakesAll(fs[1..], schema))
  }

  /** What is applied to the message. */
  function ItemOf(f: Field, schema: Schema): Item {
    if Num(f) !in schema then Unknown(Flat(f))
    else
      match f
      case Scalar(_, value) => Number(Num(f), WrapU64(Value(value)))
      case Delimited(_, _, body) => Chunk(Num(f), body)
      case _ => Unknown(Flat(f))
  }

  function ItemsOf(fs: seq<Field>, schema: Schema): seq<Item> {
    if fs == [] then [] else [ItemOf(fs[0], schema)] + ItemsOf(fs[1..], schema)
  }

  // ---- Every such field is read as itself ----

  lemma ReadsForeign(data: Bytes, pos: nat, f: Field)
    requires WellFormed(f) && At(data, pos, Flat(f)) && |data| < TWO_63
    ensures pos <= |data| && ReadUnknown(data, pos) == Good((Unknown(Flat(f)), pos + |Flat(f)|))
  {
    hide WellFormed, Flat, SkipFrom;
    assert data[pos..][0..|Flat(f)|] == data[pos..pos + |Flat(f)|];
    SkipField(data[pos..], 0, f, 0);
  }

  function NumberBehind(n: int, r: Decoded<(U64, nat)>): Decoded<(Item, nat)> {
    match r
    case Bad(e) => Bad(e)
    case Good((v, next)) => Good((Number(n, v), next))
  }

  function ChunkBehind(n: int, r: Decoded<(Bytes, nat)>): Decoded<(Item, nat)> {
    match r
    case Bad(e) => Bad(e)
    case Good((body, next)) => Good((Chunk(n, body), next))
  }

  /** What NextItem says behind a tag of a known field, in terms of what is read there. */
  lemma NextKnown(data: Bytes, pos: nat, wire: U64, i: nat, schema: Schema)
    requires pos < i <= |data| && ReadVarint(data, pos) == Good((wire, i))
    requires wire % 8 != 4 && FieldNum(wire) > 0 && FieldNum(wire) in schema
    ensures var n := FieldNum(wire);
      && (schema[n] == AsVarint && wire % 8 == 0 ==>
           NextItem(data, pos, schema) == NumberBehind(n, ReadVarint(data, i)))
      && (schema[n] == AsBytes && wire % 8 == 2 ==>
           NextItem(data, pos, schema) == ChunkBehind(n, ReadChunk(data, i)))
  {
    hide ReadVarint, ReadChunk, FieldNum, ReadUnknown;
  }

  lemma ReadsNumber(data: Bytes, pos: nat, f: Field, schema: Schema)
    requires Takes(f, schema) && f.Scalar? && Num(f) in schema && At(data, pos, Flat(f))
    ensures pos <= |data| && NextItem(data, pos, schema) == Good((ItemOf(f, schema), pos + |Flat(f)|))
  {
    hide At, ReadVarint, Value, FieldNum, IsVarint, WrapU64, NextItem, FlatAll, AllWellFormed;
    TagFirst(data, pos, f);
    AtSplit(data, pos, f.tag, f.value);
    ReadsAt(data, pos + |f.tag|, f.value);
    AtEnds(data, pos, Flat(f));
    TagNonEmpty(f);
    NextKnown(data, pos, WrapU64(Value(f.tag)), pos + |f.tag|, schema);
  }

  lemma TagNonEmpty(f: Field)
    requires WellFormed(f)
    ensures |f.tag| > 0
  {
  }

  lemma ReadsBody(data: Bytes, pos: nat, length: Bytes, body: Bytes)
    requires At(data, pos, length + body) && IsVarint(length) && WrapU64(Value(length)) == |body| && |data| < TWO_63
    ensures ReadChunk(data, pos) == Good((body, pos + |length| + |body|))
  {
    hide At, ReadVarint, Value, IsVarint, WrapU64;
    AtSplit(data, pos, length, body);
    ReadsAt(data, pos, length);
    AtIs(data, pos + |length|, body);
  }

  lemma AtIs(data: Bytes, pos: nat, s: Bytes)
    requires At(data, pos, s)
    ensures pos + |s| <= |data| && data[pos..pos + |s|] == s
  {
  }

  lemma ReadsBytes(data: Bytes, pos: nat, f: Field, schema: Schema)
    requires Takes(f, schema) && f.Delimited? && Num(f) in schema && At(data, pos, Flat(f)) && |data| < TWO_63
    ensures pos <= |data| && NextItem(data, pos, schema) == Good((ItemOf(f, schema), pos + |Flat(f)|))
  {
    hide At, ReadVarint, ReadChunk, Value, FieldNum, IsVarint, WrapU64, NextItem, FlatAll, AllWellFormed;
    TagFirst(data, pos, f);
    assert Flat(f) == f.tag + (f.length + f.body);
    AtSplit(data, pos, f.tag, f.length + f.body);
    ReadsBody(data, pos + |f.tag|, f.length, f.body);
    AtEnds(data, pos, Flat(f));
    TagNonEmpty(f);
    NextKnown(data, pos, WrapU64(Value(f.tag)), pos + |f.tag|, schema);
  }

  lemma ReadsField(data: Bytes, pos: nat, f: Field, schema: Schema)
    requires Takes(f, schema) && At(data, pos, Flat(f)) && |data| < TWO_63
    ensures pos <= |data| && NextItem(data, pos, schema) == Good((ItemOf(f, schema), pos + |Flat(f)|))
  {
    if Num(f) in schema {
      hide At, Flat, NextItem, ItemOf, WellFormed, Num;
      if f.Scalar? { ReadsNumber(data, pos, f, schema); } else { ReadsBytes(data, pos, f, schema); }
    } else {
      hide At, Flat, WellFormed, ReadVarint, ReadUnknown, Value, FieldNum, WrapU64, IsVarint;
      TagFirst(data, pos, f);
      ReadsForeign(data, pos, f);
    }
  }

  // ---- Nothing else is read ----

  lemma ForeignIs(data: Bytes, pos: nat, n: nat) returns (f: Field)
    requires pos + n <= |data| && Skip(data[pos..]) == Good(n)
    ensures WellFormed(f) && Flat(f) == data[pos..pos + n]
    ensures ReadVarint(data, pos) == Good((WrapU64(Value(f.tag)), pos + |f.tag|))
  {
    f := SkippedIsField(data[pos..], n);
    assert data[pos..][..n] == data[pos..pos + n];
    hide WellFormed, Flat, Skip, ReadVarint;
    TagFirst(data, pos, f);
  }

  lemma BodyIs(data: Bytes, i: nat) returns (j: nat)
    requires ReadChunk(data, i).Good?
    ensures var (body, next) := ReadChunk(data, i).value;
      && i < j <= next <= |data| && IsVarint(data[i..j]) && data[j..next] == body
      && WrapU64(Value(data[i..j])) == |body| < TWO_63
  {
    j := ReadVarint(data, i).value.1;
    ReadsExactly(data, i, j);
    hide ReadVarint, Value, IsVarint, WrapU64;
  }

  /** The tag of an item that was read. */
  lemma TagIs(data: Bytes, pos: nat, schema: Schema) returns (wire: U64, i: nat)
    requires pos <= |data| && NextItem(data, pos, schema).Good?
    ensures pos < i <= |data| && ReadVarint(data, pos) == Good((wire, i))
    ensures IsTag(data[pos..i], wire % 8) && WrapU64(Value(data[pos..i])) == wire
    ensures wire % 8 != 4 && FieldNum(wire) > 0
    ensures FieldNum(wire) in schema ==> wire % 8 == if schema[FieldNum(wire)] == AsVarint then 0 else 2
  {
    wire, i := ReadVarint(data, pos).value.0, ReadVarint(data, pos).value.1;
    ReadsExactly(data, pos, i);
    hide ReadVarint, Value, IsVarint, WrapU64, FieldNum, ReadChunk, ReadUnknown;
  }

  lemma NumberIs(data: Bytes, pos: nat, i: nat) returns (f: Field)
    requires pos < i <= |data| && IsTag(data[pos..i], 0) && ReadVarint(data, i).Good?
    ensures f.Scalar? && f.tag == data[pos..i] && WellFormed(f)
    ensures Flat(f) == data[pos..ReadVarint(data, i).value.1] && WrapU64(Value(f.value)) == ReadVarint(data, i).value.0
  {
    var next := ReadVarint(data, i).value.1;
    ReadsExactly(data, i, next);
    hide ReadVarint, Value, IsTag, IsVarint, WrapU64;
    f := Scalar(data[pos..i], data[i..next]);
    assert data[pos..next] == data[pos..i] + data[i..next];
  }

  lemma BytesIs(data: Bytes, pos: nat, i: nat) returns (f: Field)
    requires pos < i <= |data| && IsTag(data[pos..i], 2) && ReadChunk(data, i).Good?
    ensures f.Delimited? && f.tag == data[pos..i] && WellFormed(f)
    ensures Flat(f) == data[pos..ReadChunk(data, i).value.1] && f.body == ReadChunk(data, i).value.0
  {
    var next := ReadChunk(data, i).value.1;
    hide ReadChunk, Value, IsTag, IsVarint, WrapU64;
    var j := BodyIs(data, i);
    f := Delimited(data[pos..i], data[i..j], data[j..next]);
    assert data[pos..next] == data[pos..i] + data[i..j] + data[j..next];
  }

  lemma UnknownIs(data: Bytes, pos: nat, wire: U64, i: nat, schema: Schema)
    requires pos < i <= |data| && ReadVarint(data, pos) == Good((wire, i))
    requires FieldNum(wire) !in schema && NextItem(data, pos, schema).Good?
    ensures var (item, next) := NextItem(data, pos, schema).value;
      pos <= next <= |data| && Skip(data[pos..]) == Good(next - pos) && item == Unknown(data[pos..next])
  {
    hide ReadVarint, Skip, FieldNum;
  }

  lemma FieldIs(data: Bytes, pos: nat, schema: Schema) returns (f: Field)
    requires pos <= |data| && NextItem(data, pos, schema).Good?
    ensures var (item, next) := NextItem(data, pos, schema).value;
      Takes(f, schema) && Flat(f) == data[pos..next] && ItemOf(f, schema) == item
  {
    hide ReadVarint, ReadChunk, Skip, NextItem, FieldNum, WellFormed, Flat, IsTag, IsVarint, Value, WrapU64;
    var wire, i := TagIs(data, pos, schema);
    if FieldNum(wire) !in schema {
      UnknownIs(data, pos, wire, i, schema);
      f := ForeignIs(data, pos, NextItem(data, pos, schema).value.1 - pos);
    } else {
      NextKnown(data, pos, wire, i, schema);
      if schema[FieldNum(wire)] == AsVarint {
        f := NumberIs(data, pos, i);
      } else {
        f := BytesIs(data, pos, i);
      }
    }
  }

  // ---- The loop ----

  lemma {:induction false} FoldTakes<M>(data: Bytes, pos: nat, fs: seq<Field>, m: M, schema: Schema, apply: (M, Item) -> Decoded<M>)
    requires pos <= |data| < TWO_63 && data[pos..] == FlatAll(fs) && TakesAll(fs, schema)
    ensures Fold(data, pos, m, schema, apply) == ApplyAll(m, ItemsOf(fs, schema), apply)
    decreases fs
  {
    hide NextItem, Takes, ItemOf, Flat, WellFormed;
    if fs != [] {
      var f, rest := fs[0], fs[1..];
      var next := pos + |Flat(f)|;
      assert data[pos..] == Flat(f) + FlatAll(rest);
      assert data[pos..next] == Flat(f) && data[next..] == FlatAll(rest);
      assert At(data, pos, Flat(f));
      TakenNonEmpty(f, schema);
      ReadsField(data, pos, f, schema);
      var item := ItemOf(f, schema);
      assert ItemsOf(fs, schema)[0] == item && ItemsOf(fs, schema)[1..] == ItemsOf(rest, schema);
      if apply(m, item).Good? { FoldTakes(data, next, rest, apply(m, item).value, schema, apply); }
    }
  }

  lemma TakenNonEmpty(f: Field, schema: Schema)
    requires Takes(f, schema)
    ensures |Flat(f)| > 0
  {
    FlatNonEmpty(f);
  }

  lemma {:induction false} FoldIs<M>(data: Bytes, pos: nat, m: M, schema: Schema, apply: (M, Item) -> Decoded<M>)
    returns (fs: seq<Field>)
    requires pos <= |data| && Fold(data, pos, m, schema, apply).Good?
    ensures TakesAll(fs, schema) && FlatAll(fs) == data[pos..]
    ensures ApplyAll(m, ItemsOf(fs, schema), apply) == Fold(data, pos, m, schema, apply)
    decreases |data| - pos
  {
    hide NextItem, Takes, ItemOf, Flat;
    if pos == |data| {
      fs := [];
    } else {
      var (item, next) := NextItem(data, pos, schema).value;
      var f := FieldIs(data, pos, schema);
      var rest := FoldIs(data, next, apply(m, item).value, schema, apply);
      fs := [f] + rest;
      assert fs[1..] == rest;
      assert ItemsOf(fs, schema)[0] == item && ItemsOf(fs, schema)[1..] == ItemsOf(rest, schema);
      assert data[pos..] == data[pos..next] + data[next..];
    }
  }

  /** Decoding succeeds with a message exactly if the input is a concatenation of fields the message takes and
      applying them one after the other succeeds with that message. */
  lemma FoldExact<M>(data: Bytes, m: M, m': M, schema: Schema, apply: (M, Item) -> Decoded<M>)
    requires |data| < TWO_63
    ensures Fold(data, 0, m, schema, apply) == Good(m') <==>
      exists fs :: TakesAll(fs, schema) && FlatAll(fs) == data && ApplyAll(m, ItemsOf(fs, schema), apply) == Good(m')
  {
    hide TakesAll, FlatAll, ItemsOf, ApplyAll, Fold;
    assert data[0..] == data;
    if Fold(data, 0, m, schema, apply) == Good(m') { var fs := FoldIs(data, 0, m, schema, apply); }
    if fs :| TakesAll(fs, schema) && FlatAll(fs) == data && ApplyAll(m, ItemsOf(fs, schema), apply) == Good(m') {
      FoldTakes(data, 0, fs, m, schema, apply);
    }
  }
}
