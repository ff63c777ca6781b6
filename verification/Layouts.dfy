/** The bytes of every message, tag by tag as the Protocol Buffers definitions number the fields, and what one
    field, whatever its value, does to a message that is being read. */
module Layouts {
  import opened Words
  import opened Types
  import opened Varints
  import opened Wire
  import opened Messages
  import opened NestedMessages

  // ---- Fields as bytes ----

  function Body(tag: byte, s: Bytes): Bytes {
    [tag] + Varint(|s|) + s
  }

  function Optional(tag: byte, s: Bytes): Bytes {
    if s == [] then [] else Body(tag, s)
  }

  function Scalar(tag: byte, v: U64): Bytes {
    [tag] + Varint(v)
  }

  function Nonzero(tag: byte, v: U64): Bytes {
    if v == 0 then [] else Scalar(tag, v)
  }

  function Bodies(tag: byte, list: seq<Bytes>): Bytes {
    if list == [] then [] else Body(tag, list[0]) + Bodies(tag, list[1..])
  }

  lemma FieldBytes(field: nat, s: Bytes, v: U64, b: bool)
    requires 0 < field < 16
    ensures EncodeAll(Text(field, s)) == Optional(8 * field + 2, s)
    ensures EncodeAll([Chunk(field, s)]) == Encode(Chunk(field, s)) == Body(8 * field + 2, s)
    ensures EncodeAll(Word(field, v)) == Nonzero(8 * field, v)
    ensures EncodeAll([Number(field, v)]) == Encode(Number(field, v)) == Scalar(8 * field, v)
    ensures EncodeAll(Flag(field, b)) == if b then [8 * field, 1] else []
  {
    assert Varint(8 * field) == [8 * field] && Varint(8 * field + 2) == [8 * field + 2] && Varint(1) == [1];
    EncodeOne(Chunk(field, s));
    EncodeOne(Number(field, v));
    EncodeOne(Number(field, 1));
  }

  lemma {:induction false} RepeatedBytes(field: nat, list: seq<Bytes>)
    requires 0 < field < 16
    ensures EncodeAll(Repeated(field, list)) == Bodies(8 * field + 2, list)
  {
    hide EncodeAll;
    if list == [] {
      NoItems();
    } else {
      FieldBytes(field, list[0], 0, false);
      EncodeAppend([Chunk(field, list[0])], Repeated(field, list[1..]));
      RepeatedBytes(field, list[1..]);
    }
  }

  lemma NoItems()
    ensures EncodeAll([]) == []
  {
  }

  // ---- What is written ----

  lemma ParamsBytes(p: Params)
    ensures MarshalParams(p) == Nonzero(0x08, p.minWindow) + Nonzero(0x10, p.defaultWindow) + Nonzero(0x18, p.maxWindow)
  {
    hide EncodeAll, Word, Nonzero;
    FieldBytes(1, [], p.minWindow, false);
    FieldBytes(2, [], p.defaultWindow, false);
    FieldBytes(3, [], p.maxWindow, false);
    EncodeAppend(Word(1, p.minWindow), Word(2, p.defaultWindow));
    EncodeAppend(Word(1, p.minWindow) + Word(2, p.defaultWindow), Word(3, p.maxWindow));
  }

  lemma RecordBytes(r: Record)
    ensures MarshalRecord(r) ==
      Optional(0x0a, r.index) + Nonzero(0x10, r.sent) + Nonzero(0x18, r.cancelled) + if r.finalOnly then [0x20, 1] else []
  {
    hide EncodeAll, Word, Nonzero, Text, Optional, Flag;
    var a, b, c, d := Text(1, r.index), Word(2, r.sent), Word(3, r.cancelled), Flag(4, r.finalOnly);
    FieldBytes(1, r.index, 0, false);
    FieldBytes(2, [], r.sent, false);
    FieldBytes(3, [], r.cancelled, false);
    FieldBytes(4, [], 0, r.finalOnly);
    EncodeAppend(a, b);
    EncodeAppend(a + b, c);
    EncodeAppend(a + b + c, d);
  }

  lemma PendingBytes(coins: CoinCodec, p: Pending)
    ensures MarshalPending(coins, p) ==
      Nonzero(0x08, p.id) + Optional(0x12, p.sender) + Optional(0x1a, p.recipient) + Body(0x22, coins.encode(p.amount))
      + Nonzero(0x28, if p.executeAt < 0 then p.executeAt + TWO_64 else p.executeAt)
  {
    hide EncodeAll, Word, Nonzero, Text, Optional, Body;
    var a, b, c, d, e := Word(1, p.id), Text(2, p.sender), Text(3, p.recipient), [Chunk(4, coins.encode(p.amount))], Word(5, ToU64(p.executeAt));
    FieldBytes(1, [], p.id, false);
    FieldBytes(2, p.sender, 0, false);
    FieldBytes(3, p.recipient, 0, false);
    FieldBytes(4, coins.encode(p.amount), 0, false);
    FieldBytes(5, [], ToU64(p.executeAt), false);
    EncodeAppend(a, b);
    EncodeAppend(a + b, c);
    EncodeAppend(a + b + c, d);
    EncodeAppend(a + b + c + d, e);
  }

  function PendingList(coins: CoinCodec, list: seq<Pending>): seq<Bytes> {
    seq(|list|, i requires 0 <= i < |list| => MarshalPending(coins, list[i]))
  }

  function RecordList(list: seq<Record>): seq<Bytes> {
    seq(|list|, i requires 0 <= i < |list| => MarshalRecord(list[i]))
  }

  lemma {:induction false} PendingListIs(coins: CoinCodec, list: seq<Pending>)
    ensures PendingBodies(coins, list) == PendingList(coins, list)
  {
    hide MarshalPending;
    if list != [] { PendingListIs(coins, list[1..]); }
  }

  lemma {:induction false} RecordListIs(list: seq<Record>)
    ensures RecordBodies(list) == RecordList(list)
  {
    hide MarshalRecord;
    if list != [] { RecordListIs(list[1..]); }
  }

  lemma GenesisBytes(coins: CoinCodec, g: GenesisState)
    ensures MarshalGenesis(coins, g) ==
      Body(0x0a, MarshalParams(g.params)) + Bodies(0x12, PendingList(coins, g.pendingList))
      + Nonzero(0x18, g.pendingCount) + Bodies(0x22, RecordList(g.recordMap))
  {
    hide EncodeAll, Word, Nonzero, Repeated, Bodies, Body, MarshalParams, PendingList, RecordList, PendingBodies, RecordBodies;
    var a, b, c, d := [Chunk(1, MarshalParams(g.params))], Repeated(2, PendingBodies(coins, g.pendingList)),
      Word(3, g.pendingCount), Repeated(4, RecordBodies(g.recordMap));
    FieldBytes(1, MarshalParams(g.params), 0, false);
    FieldBytes(3, [], g.pendingCount, false);
    PendingListIs(coins, g.pendingList);
    RecordListIs(g.recordMap);
    RepeatedBytes(2, PendingBodies(coins, g.pendingList));
    RepeatedBytes(4, RecordBodies(g.recordMap));
    EncodeAppend(a, b);
    EncodeAppend(a + b, c);
    EncodeAppend(a + b + c, d);
  }

  lemma UpdateParamsBytes(u: MsgUpdateParams)
    ensures MarshalUpdateParams(u) == Optional(0x0a, u.authority) + Body(0x12, MarshalParams(u.params))
  {
    hide EncodeAll, Text, Optional, Body, MarshalParams;
    FieldBytes(1, u.authority, 0, false);
    FieldBytes(2, MarshalParams(u.params), 0, false);
    EncodeAppend(Text(1, u.authority), [Chunk(2, MarshalParams(u.params))]);
  }

  lemma DelayedSendBytes(coins: CoinCodec, d: MsgDelayedSend)
    ensures MarshalDelayedSend(coins, d) ==
      Optional(0x0a, d.creator) + Optional(0x12, d.recipient) + Body(0x1a, coins.encode(d.amount)) + Nonzero(0x20, d.window)
  {
    hide EncodeAll, Word, Nonzero, Text, Optional, Body;
    var a, b, c, e := Text(1, d.creator), Text(2, d.recipient), [Chunk(3, coins.encode(d.amount))], Word(4, d.window);
    FieldBytes(1, d.creator, 0, false);
    FieldBytes(2, d.recipient, 0, false);
    FieldBytes(3, coins.encode(d.amount), 0, false);
    FieldBytes(4, [], d.window, false);
    EncodeAppend(a, b);
    EncodeAppend(a + b, c);
    EncodeAppend(a + b + c, e);
  }

  lemma CancelSendBytes(c: MsgCancelSend)
    ensures MarshalCancelSend(c) == Optional(0x0a, c.creator) + Nonzero(0x10, c.id)
  {
    hide EncodeAll, Word, Nonzero, Text, Optional;
    FieldBytes(1, c.creator, 0, false);
    FieldBytes(2, [], c.id, false);
    EncodeAppend(Text(1, c.creator), Word(2, c.id));
  }

  lemma SetFinalOnlyBytes(s: MsgSetFinalOnly)
    ensures MarshalSetFinalOnly(s) == Optional(0x0a, s.creator) + if s.finalOnly then [0x10, 1] else []
  {
    hide EncodeAll, Text, Optional, Flag;
    FieldBytes(1, s.creator, 0, false);
    FieldBytes(2, [], 0, s.finalOnly);
    EncodeAppend(Text(1, s.creator), Flag(2, s.finalOnly));
  }

  // ---- What is read ----

  lemma OneScalar<M>(field: nat, v: U64, m: M, schema: Schema, apply: (M, Item) -> Decoded<M>)
    requires 0 < field < 16 && field in schema && schema[field] == AsVarint
    ensures Fold(Scalar(8 * field, v), 0, m, schema, apply) == apply(m, Number(field, v))
  {
    FieldBytes(field, [], v, false);
    VarintOfWord(v);
    FoldOne(Number(field, v), m, schema, apply);
  }

  lemma OneBody<M>(field: nat, s: Bytes, m: M, schema: Schema, apply: (M, Item) -> Decoded<M>)
    requires 0 < field < 16 && field in schema && schema[field] == AsBytes && |Body(8 * field + 2, s)| < TWO_63
    ensures Fold(Body(8 * field + 2, s), 0, m, schema, apply) == apply(m, Chunk(field, s))
  {
    FieldBytes(field, s, 0, false);
    FoldOne(Chunk(field, s), m, schema, apply);
  }

  lemma ParamsFields(m: Params, v: U64)
    ensures UnmarshalParams(Scalar(0x08, v), m) == Good(m.(minWindow := v))
    ensures UnmarshalParams(Scalar(0x10, v), m) == Good(m.(defaultWindow := v))
    ensures UnmarshalParams(Scalar(0x18, v), m) == Good(m.(maxWindow := v))
  {
    hide Fold, Scalar;
    OneScalar(1, v, m, ParamsSchema(), ApplyParams);
    OneScalar(2, v, m, ParamsSchema(), ApplyParams);
    OneScalar(3, v, m, ParamsSchema(), ApplyParams);
  }

  /** Any nonzero number is true. */
  lemma RecordFields(m: Record, s: Bytes, v: U64)
    requires |Body(0x0a, s)| < TWO_63
    ensures UnmarshalRecord(Body(0x0a, s), m) == Good(m.(index := s))
    ensures UnmarshalRecord(Scalar(0x10, v), m) == Good(m.(sent := v))
    ensures UnmarshalRecord(Scalar(0x18, v), m) == Good(m.(cancelled := v))
    ensures UnmarshalRecord(Scalar(0x20, v), m) == Good(m.(finalOnly := v != 0))
  {
    hide Fold, Scalar, Body;
    OneBody(1, s, m, RecordSchema(), ApplyRecord);
    OneScalar(2, v, m, RecordSchema(), ApplyRecord);
    OneScalar(3, v, m, RecordSchema(), ApplyRecord);
    OneScalar(4, v, m, RecordSchema(), ApplyRecord);
  }

  lemma PendingFieldsRead(coins: CoinCodec, m: Pending, s: Bytes, v: U64)
    requires |Body(0x12, s)| < TWO_63 && |Body(0x1a, s)| < TWO_63 && |Body(0x22, s)| < TWO_63
    ensures UnmarshalPending(coins, Scalar(0x08, v), m) == Good(m.(id := v))
    ensures UnmarshalPending(coins, Body(0x12, s), m) == Good(m.(sender := s))
    ensures UnmarshalPending(coins, Body(0x1a, s), m) == Good(m.(recipient := s))
    ensures UnmarshalPending(coins, Body(0x22, s), m) ==
      match coins.decode(m.amount, s) case Bad(e) => Bad(e) case Good(c) => Good(m.(amount := c))
    ensures UnmarshalPending(coins, Scalar(0x28, v), m) == Good(m.(executeAt := if v < TWO_63 then v else v - TWO_64))
  {
    hide Fold, Scalar, Body;
    OneScalar(1, v, m, PendingSchema(), ApplyPending(coins));
    OneBody(2, s, m, PendingSchema(), ApplyPending(coins));
    OneBody(3, s, m, PendingSchema(), ApplyPending(coins));
    OneBody(4, s, m, PendingSchema(), ApplyPending(coins));
    OneScalar(5, v, m, PendingSchema(), ApplyPending(coins));
    PendingFields(coins, m, v, s, s);
  }

  /** Nested parameters go into those already there; list elements start from nothing and are appended. */
  lemma GenesisFields(coins: CoinCodec, m: GenesisState, s: Bytes, v: U64)
    requires |Body(0x0a, s)| < TWO_63 && |Body(0x12, s)| < TWO_63 && |Body(0x22, s)| < TWO_63
    ensures UnmarshalGenesis(coins, Body(0x0a, s), m) ==
      match UnmarshalParams(s, m.params) case Bad(e) => Bad(e) case Good(p) => Good(m.(params := p))
    ensures UnmarshalGenesis(coins, Body(0x12, s), m) ==
      match UnmarshalPending(coins, s, Pending(0, [], [], NO_COIN, 0))
      case Bad(e) => Bad(e)
      case Good(p) => Good(m.(pendingList := m.pendingList + [p]))
    ensures UnmarshalGenesis(coins, Scalar(0x18, v), m) == Good(m.(pendingCount := v))
    ensures UnmarshalGenesis(coins, Body(0x22, s), m) ==
      match UnmarshalRecord(s, Record([], 0, 0, false))
      case Bad(e) => Bad(e)
      case Good(r) => Good(m.(recordMap := m.recordMap + [r]))
  {
    hide Fold, Scalar, Body, UnmarshalParams, UnmarshalPending, UnmarshalRecord;
    OneBody(1, s, m, GenesisSchema(), ApplyGenesis(coins));
    OneBody(2, s, m, GenesisSchema(), ApplyGenesis(coins));
    OneScalar(3, v, m, GenesisSchema(), ApplyGenesis(coins));
    OneBody(4, s, m, GenesisSchema(), ApplyGenesis(coins));
  }

  lemma UpdateParamsFields(m: MsgUpdateParams, s: Bytes)
    requires |Body(0x0a, s)| < TWO_63 && |Body(0x12, s)| < TWO_63
    ensures UnmarshalUpdateParams(Body(0x0a, s), m) == Good(m.(authority := s))
    ensures UnmarshalUpdateParams(Body(0x12, s), m) ==
      match UnmarshalParams(s, m.params) case Bad(e) => Bad(e) case Good(p) => Good(m.(params := p))
  {
    hide Fold, Body, UnmarshalParams;
    OneBody(1, s, m, UpdateParamsSchema(), ApplyUpdateParams);
    OneBody(2, s, m, UpdateParamsSchema(), ApplyUpdateParams);
  }

  lemma DelayedSendFieldsRead(coins: CoinCodec, m: MsgDelayedSend, s: Bytes, v: U64)
    requires |Body(0x0a, s)| < TWO_63 && |Body(0x12, s)| < TWO_63 && |Body(0x1a, s)| < TWO_63
    ensures UnmarshalDelayedSend(coins, Body(0x0a, s), m) == Good(m.(creator := s))
    ensures UnmarshalDelayedSend(coins, Body(0x12, s), m) == Good(m.(recipient := s))
    ensures UnmarshalDelayedSend(coins, Body(0x1a, s), m) ==
      match coins.decode(m.amount, s) case Bad(e) => Bad(e) case Good(c) => Good(m.(amount := c))
    ensures UnmarshalDelayedSend(coins, Scalar(0x20, v), m) == Good(m.(window := v))
  {
    hide Fold, Scalar, Body;
    OneBody(1, s, m, DelayedSendSchema(), ApplyDelayedSend(coins));
    OneBody(2, s, m, DelayedSendSchema(), ApplyDelayedSend(coins));
    OneBody(3, s, m, DelayedSendSchema(), ApplyDelayedSend(coins));
    OneScalar(4, v, m, DelayedSendSchema(), ApplyDelayedSend(coins));
  }

  lemma CancelSendFields(m: MsgCancelSend, s: Bytes, v: U64)
    requires |Body(0x0a, s)| < TWO_63
    ensures UnmarshalCancelSend(Body(0x0a, s), m) == Good(m.(creator := s))
    ensures UnmarshalCancelSend(Scalar(0x10, v), m) == Good(m.(id := v))
  {
    hide Fold, Scalar, Body;
    OneBody(1, s, m, CancelSendSchema(), ApplyCancelSend);
    OneScalar(2, v, m, CancelSendSchema(), ApplyCancelSend);
  }

  lemma SetFinalOnlyFields(m: MsgSetFinalOnly, s: Bytes, v: U64)
    requires |Body(0x0a, s)| < TWO_63
    ensures UnmarshalSetFinalOnly(Body(0x0a, s), m) == Good(m.(creator := s))
    ensures UnmarshalSetFinalOnly(Scalar(0x10, v), m) == Good(m.(finalOnly := v != 0))
  {
    hide Fold, Scalar, Body;
    OneBody(1, s, m, SetFinalOnlySchema(), ApplySetFinalOnly);
    OneScalar(2, v, m, SetFinalOnlySchema(), ApplySetFinalOnly);
  }
}
