/** The messages of the undo module: their fields, their bytes, and what decoding does with each field. */
module Messages {
  import opened Words
  import opened Types
  import opened Varints
  import opened Wire

  datatype MsgUpdateParams = MsgUpdateParams(authority: Str, params: Params)
  datatype MsgDelayedSend = MsgDelayedSend(creator: Str, recipient: Str, amount: Coin, window: U64)
  datatype MsgCancelSend = MsgCancelSend(creator: Str, id: U64)
  datatype MsgSetFinalOnly = MsgSetFinalOnly(creator: Str, finalOnly: bool)

  /** The coin codec of the SDK: how a coin is written, and how bytes are read into a coin. */
  datatype CoinCodec = CoinCodec(encode: Coin -> Bytes, decode: (Coin, Bytes) -> Decoded<Coin>)

  const NO_COIN := Coin([], 0)

  ghost predicate RoundTrips(coins: CoinCodec) {
    forall c :: coins.decode(NO_COIN, coins.encode(c)) == Good(c)
  }

  // ---- Fields: a zero value is not written ----

  ghost predicate Writable(items: seq<Item>) {
    forall i :: i in items ==> i.Unknown? || i.field >= 0
  }

  function Text(field: nat, s: Str): (items: seq<Item>)
    ensures Writable(items)
  {
    if s == [] then [] else [Chunk(field, s)]
  }

  function Word(field: nat, v: U64): (items: seq<Item>)
    ensures Writable(items)
  {
    if v == 0 then [] else [Number(field, v)]
  }

  function Flag(field: nat, b: bool): (items: seq<Item>)
    ensures Writable(items)
  {
    if b then [Number(field, 1)] else []
  }

  function Repeated(field: nat, bodies: seq<Bytes>): (items: seq<Item>)
    ensures forall i :: i in items ==> i.Chunk? && i.field == field && i.body in bodies
    ensures forall b :: b in bodies ==> Chunk(field, b) in items
  {
    if bodies == [] then [] else [Chunk(field, bodies[0])] + Repeated(field, bodies[1..])
  }

  lemma RepeatedNone(field: nat)
    ensures Repeated(field, []) == []
  {
  }

  lemma RepeatedFirst(field: nat, b: Bytes, rest: seq<Bytes>)
    ensures Repeated(field, [b] + rest) == [Chunk(field, b)] + Repeated(field, rest)
  {
    assert ([b] + rest)[1..] == rest;
  }

  function TextSize(s: Str): nat {
    if s == [] then 0 else 1 + |s| + Sov(|s|)
  }

  function WordSize(v: U64): nat {
    if v == 0 then 0 else 1 + Sov(v)
  }

  function FlagSize(b: bool): nat {
    if b then 2 else 0
  }

  function NestedSize(n: nat): nat {
    1 + n + Sov(n)
  }

  lemma {:induction false} EncodeAppend(a: seq<Item>, b: seq<Item>)
    requires Writable(a) && Writable(b)
    ensures Writable(a + b) && EncodeAll(a + b) == EncodeAll(a) + EncodeAll(b)
  {
    if a == [] {
      assert a + b == b;
    } else {
      assert (a + b)[0] == a[0] && (a + b)[1..] == a[1..] + b;
      assert Writable(a[1..]) by { forall i | i in a[1..] ensures i in a {} }
      EncodeAppend(a[1..], b);
    }
  }

  /** The sizes of the source, field by field. */
  lemma FieldSizes(field: nat, s: Str, v: U64, b: bool)
    requires 0 < field < 16
    ensures |EncodeAll(Text(field, s))| == TextSize(s)
    ensures |EncodeAll(Word(field, v))| == WordSize(v)
    ensures |EncodeAll(Flag(field, b))| == FlagSize(b)
    ensures |EncodeAll([Chunk(field, s)])| == NestedSize(|s|)
  {
    SovIsLength(|s|);
    SovIsLength(v);
    assert |Varint(8 * field)| == 1 && |Varint(8 * field + 2)| == 1 && |Varint(1)| == 1;
    EncodeOne(Chunk(field, s));
    EncodeOne(Number(field, v));
    EncodeOne(Number(field, 1));
  }

  lemma EncodeOne(item: Item)
    requires item.Unknown? || item.field >= 0
    ensures EncodeAll([item]) == Encode(item)
  {
    assert [item][1..] == [];
  }

  // ---- Applying fields ----

  lemma ApplyOne<M>(m: M, item: Item, apply: (M, Item) -> Decoded<M>)
    ensures ApplyAll(m, [item], apply) == apply(m, item)
    ensures ApplyAll(m, [], apply) == Good(m)
  {
    if apply(m, item).Good? { assert [item][1..] == []; }
  }

  lemma ApplyWord<M>(m: M, field: nat, v: U64, m': M, apply: (M, Item) -> Decoded<M>)
    requires if v == 0 then m' == m else apply(m, Number(field, v)) == Good(m')
    ensures ApplyAll(m, Word(field, v), apply) == Good(m')
  {
    ApplyOne(m, Number(field, v), apply);
  }

  lemma ApplyText<M>(m: M, field: nat, s: Str, m': M, apply: (M, Item) -> Decoded<M>)
    requires if s == [] then m' == m else apply(m, Chunk(field, s)) == Good(m')
    ensures ApplyAll(m, Text(field, s), apply) == Good(m')
  {
    ApplyOne(m, Chunk(field, s), apply);
  }

  lemma ApplyFirst<M>(m: M, item: Item, rest: seq<Item>, apply: (M, Item) -> Decoded<M>)
    requires apply(m, item).Good?
    ensures ApplyAll(m, [item] + rest, apply) == ApplyAll(apply(m, item).value, rest, apply)
  {
    assert ([item] + rest)[1..] == rest;
  }

  // ---- Params ----

  function ParamsItems(p: Params): seq<Item> {
    Word(1, p.minWindow) + Word(2, p.defaultWindow) + Word(3, p.maxWindow)
  }

  function ParamsSchema(): Schema {
    map[1 := AsVarint, 2 := AsVarint, 3 := AsVarint]
  }

  function ApplyParams(m: Params, item: Item): Decoded<Params> {
    match item
    case Number(1, v) => Good(m.(minWindow := v))
    case Number(2, v) => Good(m.(defaultWindow := v))
    case Number(3, v) => Good(m.(maxWindow := v))
    case _ => Good(m)
  }

  const NO_PARAMS := Params(0, 0, 0)

  function MarshalParams(p: Params): Bytes {
    EncodeAll(ParamsItems(p))
  }

  function UnmarshalParams(data: Bytes, m: Params): Decoded<Params> {
    Fold(data, 0, m, ParamsSchema(), ApplyParams)
  }

  function SizeParams(p: Params): nat {
    WordSize(p.minWindow) + WordSize(p.defaultWindow) + WordSize(p.maxWindow)
  }

  function Pick(before: U64, after: U64): U64 {
    if after == 0 then before else after
  }

  function MergeParams(a: Params, b: Params): Params {
    Params(Pick(a.minWindow, b.minWindow), Pick(a.defaultWindow, b.defaultWindow), Pick(a.maxWindow, b.maxWindow))
  }

  lemma ParamsSize(p: Params)
    ensures |MarshalParams(p)| == SizeParams(p) <= 33
  {
    EncodeAppend(Word(1, p.minWindow), Word(2, p.defaultWindow));
    EncodeAppend(Word(1, p.minWindow) + Word(2, p.defaultWindow), Word(3, p.maxWindow));
    FieldSizes(1, [], p.minWindow, false);
    FieldSizes(2, [], p.defaultWindow, false);
    FieldSizes(3, [], p.maxWindow, false);
    WordFits(p.minWindow);
    WordFits(p.defaultWindow);
    WordFits(p.maxWindow);
  }

  lemma WordFits(v: U64)
    ensures WordSize(v) <= 11
  {
    VarintOfWord(v);
    SovIsLength(v);
  }

  /** Decoding the bytes of p into m overrides m by the fields p sets. */
  lemma ParamsMerge(m: Params, p: Params)
    ensures UnmarshalParams(MarshalParams(p), m) == Good(MergeParams(m, p))
  {
    var a, b, c := Word(1, p.minWindow), Word(2, p.defaultWindow), Word(3, p.maxWindow);
    ApplyOne(m, Number(1, p.minWindow), ApplyParams);
    var m1 := ApplyAll(m, a, ApplyParams).value;
    ApplyOne(m1, Number(2, p.defaultWindow), ApplyParams);
    var m2 := ApplyAll(m1, b, ApplyParams).value;
    ApplyOne(m2, Number(3, p.maxWindow), ApplyParams);
    ApplyAppend(m, a, b, ApplyParams);
    ApplyAppend(m, a + b, c, ApplyParams);
    ParamsSize(p);
    assert AllFit(ParamsItems(p), ParamsSchema());
    FoldItems(ParamsItems(p), m, ParamsSchema(), ApplyParams);
  }

  // ---- Record ----

  function RecordItems(r: Record): seq<Item> {
    Text(1, r.index) + Word(2, r.sent) + Word(3, r.cancelled) + Flag(4, r.finalOnly)
  }

  function RecordSchema(): Schema {
    map[1 := AsBytes, 2 := AsVarint, 3 := AsVarint, 4 := AsVarint]
  }

  function ApplyRecord(m: Record, item: Item): Decoded<Record> {
    match item
    case Chunk(1, s) => Good(m.(index := s))
    case Number(2, v) => Good(m.(sent := v))
    case Number(3, v) => Good(m.(cancelled := v))
    case Number(4, v) => Good(m.(finalOnly := v != 0))
    case _ => Good(m)
  }

  const NO_RECORD := Record([], 0, 0, false)

  function MarshalRecord(r: Record): Bytes {
    EncodeAll(RecordItems(r))
  }

  function UnmarshalRecord(data: Bytes, m: Record): Decoded<Record> {
    Fold(data, 0, m, RecordSchema(), ApplyRecord)
  }

  function SizeRecord(r: Record): nat {
    TextSize(r.index) + WordSize(r.sent) + WordSize(r.cancelled) + FlagSize(r.finalOnly)
  }

  function MergeRecord(a: Record, b: Record): Record {
    Record(if b.index == [] then a.index else b.index, Pick(a.sent, b.sent), Pick(a.cancelled, b.cancelled),
           a.finalOnly || b.finalOnly)
  }

  lemma RecordSize(r: Record)
    ensures |MarshalRecord(r)| == SizeRecord(r)
  {
    var a, b, c, d := Text(1, r.index), Word(2, r.sent), Word(3, r.cancelled), Flag(4, r.finalOnly);
    EncodeAppend(a, b);
    EncodeAppend(a + b, c);
    EncodeAppend(a + b + c, d);
    FieldSizes(1, r.index, 0, false);
    FieldSizes(2, [], r.sent, false);
    FieldSizes(3, [], r.cancelled, false);
    FieldSizes(4, [], 0, r.finalOnly);
  }

  lemma RecordApplies(m: Record, r: Record)
    ensures ApplyAll(m, RecordItems(r), ApplyRecord) == Good(MergeRecord(m, r))
    ensures AllFit(RecordItems(r), RecordSchema())
  {
    hide ApplyAll, IsForeign;
    var a, b, c, d := Text(1, r.index), Word(2, r.sent), Word(3, r.cancelled), Flag(4, r.finalOnly);
    assert AllFit(RecordItems(r), RecordSchema());
    var m1 := m.(index := MergeRecord(m, r).index);
    var m2 := m1.(sent := MergeRecord(m, r).sent);
    var m3 := m2.(cancelled := MergeRecord(m, r).cancelled);
    assert Flag(4, r.finalOnly) == Word(4, if r.finalOnly then 1 else 0);
    hide Text, Word, Flag, AllFit;
    ApplyText(m, 1, r.index, m1, ApplyRecord);
    ApplyWord(m1, 2, r.sent, m2, ApplyRecord);
    ApplyWord(m2, 3, r.cancelled, m3, ApplyRecord);
    ApplyWord(m3, 4, if r.finalOnly then 1 else 0, MergeRecord(m, r), ApplyRecord);
    hide ApplyRecord, MergeRecord;
    ApplyAppend(m, a, b, ApplyRecord);
    ApplyAppend(m, a + b, c, ApplyRecord);
    ApplyAppend(m, a + b + c, d, ApplyRecord);
  }

  lemma RecordMerge(m: Record, r: Record)
    requires |MarshalRecord(r)| < TWO_63
    ensures UnmarshalRecord(MarshalRecord(r), m) == Good(MergeRecord(m, r))
  {
    RecordApplies(m, r);
    FoldItems(RecordItems(r), m, RecordSchema(), ApplyRecord);
  }

  /** The round trip of a tally, for all 64-bit counts and all strings. */
  lemma RecordRoundTrip(r: Record)
    requires |MarshalRecord(r)| < TWO_63
    ensures UnmarshalRecord(MarshalRecord(r), NO_RECORD) == Good(r)
  {
    RecordMerge(NO_RECORD, r);
  }

  /** Two encodings one after the other: last one wins, field by field. */
  lemma RecordConcat(a: Record, b: Record)
    requires |MarshalRecord(a) + MarshalRecord(b)| < TWO_63
    ensures UnmarshalRecord(MarshalRecord(a) + MarshalRecord(b), NO_RECORD) == Good(MergeRecord(a, b))
  {
    RecordRoundTrip(a);
    RecordMerge(a, b);
    FoldConcat(MarshalRecord(a), MarshalRecord(b), NO_RECORD, RecordSchema(), ApplyRecord);
  }

  /** Unknown fields, nested groups included, anywhere in the encoding do not matter. */
  lemma RecordIgnoresUnknown(r: Record, items: seq<Item>)
    requires AllFit(items, RecordSchema()) && Known(items) == RecordItems(r) && |EncodeAll(items)| < TWO_63
    ensures UnmarshalRecord(EncodeAll(items), NO_RECORD) == Good(r)
  {
    RecordApplies(NO_RECORD, r);
    KnownFits(items, RecordSchema());
    UnknownIgnored(items, NO_RECORD, RecordSchema(), ApplyRecord);
    RecordRoundTrip(r);
  }
}
