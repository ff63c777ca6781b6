/** The messages that hold other messages: pending entries, the genesis state, and the transactions. */
module NestedMessages {
  import opened Words
  import opened Types
  import opened Varints
  import opened Wire
  import opened Messages

  // ---- Pending ----

  function PendingItems(coins: CoinCodec, p: Pending): seq<Item> {
    Word(1, p.id) + Text(2, p.sender) + Text(3, p.recipient) + [Chunk(4, coins.encode(p.amount))] + Word(5, ToU64(p.executeAt))
  }

  function PendingSchema(): Schema {
    map[1 := AsVarint, 2 := AsBytes, 3 := AsBytes, 4 := AsBytes, 5 := AsVarint]
  }

  function ApplyPending(coins: CoinCodec): (Pending, Item) -> Decoded<Pending> {
    (m: Pending, item: Item) =>
      match item
      case Number(1, v) => Good(m.(id := v))
      case Chunk(2, s) => Good(m.(sender := s))
      case Chunk(3, s) => Good(m.(recipient := s))
      case Chunk(4, body) =>
        (match coins.decode(m.amount, body)
         case Bad(e) => Bad(e)
         case Good(c) => Good(m.(amount := c)))
      case Number(5, v) => Good(m.(executeAt := ToI64(v)))
      case _ => Good(m)
  }

  const NO_PENDING := Pending(0, [], [], NO_COIN, 0)

  function MarshalPending(coins: CoinCodec, p: Pending): Bytes {
    EncodeAll(PendingItems(coins, p))
  }

  function UnmarshalPending(coins: CoinCodec, data: Bytes, m: Pending): Decoded<Pending> {
    Fold(data, 0, m, PendingSchema(), ApplyPending(coins))
  }

  function SizePending(coins: CoinCodec, p: Pending): nat {
    WordSize(p.id) + TextSize(p.sender) + TextSize(p.recipient) + NestedSize(|coins.encode(p.amount)|) + WordSize(ToU64(p.executeAt))
  }

  lemma PendingSize(coins: CoinCodec, p: Pending)
    ensures |MarshalPending(coins, p)| == SizePending(coins, p)
  {
    var a, b, c, d, e := Word(1, p.id), Text(2, p.sender), Text(3, p.recipient), [Chunk(4, coins.encode(p.amount))], Word(5, ToU64(p.executeAt));
    EncodeAppend(a, b);
    EncodeAppend(a + b, c);
    EncodeAppend(a + b + c, d);
    EncodeAppend(a + b + c + d, e);
    FieldSizes(1, [], p.id, false);
    FieldSizes(2, p.sender, 0, false);
    FieldSizes(3, p.recipient, 0, false);
    FieldSizes(4, coins.encode(p.amount), 0, false);
    FieldSizes(5, [], ToU64(p.executeAt), false);
  }

  lemma PendingFields(coins: CoinCodec, m: Pending, v: U64, s: Str, body: Bytes)
    ensures ApplyPending(coins)(m, Number(1, v)) == Good(m.(id := v))
    ensures ApplyPending(coins)(m, Chunk(2, s)) == Good(m.(sender := s))
    ensures ApplyPending(coins)(m, Chunk(3, s)) == Good(m.(recipient := s))
    ensures coins.decode(m.amount, body).Good? ==>
      ApplyPending(coins)(m, Chunk(4, body)) == Good(m.(amount := coins.decode(m.amount, body).value))
    ensures ApplyPending(coins)(m, Number(5, v)) == Good(m.(executeAt := ToI64(v)))
  {
  }

  /** What each field of an entry does, starting from an empty one. */
  lemma PendingSteps(coins: CoinCodec, p: Pending, m1: Pending, m2: Pending, m3: Pending, m4: Pending)
    requires RoundTrips(coins)
    requires m1 == NO_PENDING.(id := p.id) && m2 == m1.(sender := p.sender)
    requires m3 == m2.(recipient := p.recipient) && m4 == m3.(amount := p.amount)
    ensures var apply := ApplyPending(coins);
      && ApplyAll(NO_PENDING, Word(1, p.id), apply) == Good(m1)
      && ApplyAll(m1, Text(2, p.sender), apply) == Good(m2)
      && ApplyAll(m2, Text(3, p.recipient), apply) == Good(m3)
      && ApplyAll(m3, [Chunk(4, coins.encode(p.amount))], apply) == Good(m4)
      && ApplyAll(m4, Word(5, ToU64(p.executeAt)), apply) == Good(p)
  {
    PendingFields(coins, NO_PENDING, p.id, [], []);
    PendingFields(coins, m1, 0, p.sender, []);
    PendingFields(coins, m2, 0, p.recipient, []);
    PendingFields(coins, m3, 0, [], coins.encode(p.amount));
    PendingFields(coins, m4, ToU64(p.executeAt), [], []);
    assert coins.decode(m3.amount, coins.encode(p.amount)) == Good(p.amount);
    hide ApplyAll, Word, Text, ApplyPending, RoundTrips;
    var apply := ApplyPending(coins);
    ApplyWord(NO_PENDING, 1, p.id, m1, apply);
    ApplyText(m1, 2, p.sender, m2, apply);
    ApplyText(m2, 3, p.recipient, m3, apply);
    ApplyOne(m3, Chunk(4, coins.encode(p.amount)), apply);
    ApplyWord(m4, 5, ToU64(p.executeAt), p, apply);
  }

  /** The round trip of an entry, times before 1970 included. */
  lemma PendingRoundTrip(coins: CoinCodec, p: Pending)
    requires RoundTrips(coins) && |MarshalPending(coins, p)| < TWO_63
    ensures UnmarshalPending(coins, MarshalPending(coins, p), NO_PENDING) == Good(p)
  {
    hide Fold, EncodeAll;
    var apply := ApplyPending(coins);
    var a, b, c, d, e := Word(1, p.id), Text(2, p.sender), Text(3, p.recipient), [Chunk(4, coins.encode(p.amount))], Word(5, ToU64(p.executeAt));
    var m0 := NO_PENDING;
    var m1 := m0.(id := p.id);
    var m2 := m1.(sender := p.sender);
    var m3 := m2.(recipient := p.recipient);
    var m4 := m3.(amount := p.amount);
    assert ToI64(ToU64(p.executeAt)) == p.executeAt;
    assert AllFit(PendingItems(coins, p), PendingSchema());
    PendingSteps(coins, p, m1, m2, m3, m4);
    hide ApplyAll, ApplyPending, Text, Word;
    ApplyAppend(m0, a, b, apply);
    ApplyAppend(m0, a + b, c, apply);
    ApplyAppend(m0, a + b + c, d, apply);
    ApplyAppend(m0, a + b + c + d, e, apply);
    FoldItems(PendingItems(coins, p), m0, PendingSchema(), apply);
  }

  // ---- Genesis ----

  function PendingBodies(coins: CoinCodec, list: seq<Pending>): seq<Bytes> {
    if list == [] then [] else [MarshalPending(coins, list[0])] + PendingBodies(coins, list[1..])
  }

  function RecordBodies(list: seq<Record>): seq<Bytes> {
    if list == [] then [] else [MarshalRecord(list[0])] + RecordBodies(list[1..])
  }

  function GenesisItems(coins: CoinCodec, g: GenesisState): seq<Item> {
    [Chunk(1, MarshalParams(g.params))] + Repeated(2, PendingBodies(coins, g.pendingList)) + Word(3, g.pendingCount)
      + Repeated(4, RecordBodies(g.recordMap))
  }

  function GenesisSchema(): Schema {
    map[1 := AsBytes, 2 := AsBytes, 3 := AsVarint, 4 := AsBytes]
  }

  function ApplyGenesis(coins: CoinCodec): (GenesisState, Item) -> Decoded<GenesisState> {
    (m: GenesisState, item: Item) =>
      match item
      case Chunk(1, body) =>
        (match UnmarshalParams(body, m.params)
         case Bad(e) => Bad(e)
         case Good(p) => Good(m.(params := p)))
      case Chunk(2, body) =>
        (match UnmarshalPending(coins, body, NO_PENDING)
         case Bad(e) => Bad(e)
         case Good(p) => Good(m.(pendingList := m.pendingList + [p])))
      case Number(3, v) => Good(m.(pendingCount := v))
      case Chunk(4, body) =>
        (match UnmarshalRecord(body, NO_RECORD)
         case Bad(e) => Bad(e)
         case Good(r) => Good(m.(recordMap := m.recordMap + [r])))
      case _ => Good(m)
  }

  const NO_GENESIS := GenesisState(NO_PARAMS, [], 0, [])

  function MarshalGenesis(coins: CoinCodec, g: GenesisState): Bytes {
    EncodeAll(GenesisItems(coins, g))
  }

  function UnmarshalGenesis(coins: CoinCodec, data: Bytes, m: GenesisState): Decoded<GenesisState> {
    Fold(data, 0, m, GenesisSchema(), ApplyGenesis(coins))
  }

  function MergeGenesis(a: GenesisState, b: GenesisState): GenesisState {
    GenesisState(MergeParams(a.params, b.params), a.pendingList + b.pendingList, Messages.Pick(a.pendingCount, b.pendingCount),
                 a.recordMap + b.recordMap)
  }

  function SizePendingList(coins: CoinCodec, list: seq<Pending>): nat {
    if list == [] then 0 else NestedSize(SizePending(coins, list[0])) + SizePendingList(coins, list[1..])
  }

  function SizeRecordMap(list: seq<Record>): nat {
    if list == [] then 0 else NestedSize(SizeRecord(list[0])) + SizeRecordMap(list[1..])
  }

  function SizeGenesis(coins: CoinCodec, g: GenesisState): nat {
    NestedSize(SizeParams(g.params)) + SizePendingList(coins, g.pendingList) + WordSize(g.pendingCount) + SizeRecordMap(g.recordMap)
  }

  lemma {:induction false} PendingListSize(coins: CoinCodec, list: seq<Pending>)
    ensures |EncodeAll(Repeated(2, PendingBodies(coins, list)))| == SizePendingList(coins, list)
  {
    hide MarshalPending, SizePending, Repeated, Sov;
    RepeatedNone(2);
    if list != [] {
      var body, rest := MarshalPending(coins, list[0]), PendingBodies(coins, list[1..]);
      PendingListSize(coins, list[1..]);
      RepeatedFirst(2, body, rest);
      EncodeAppend([Chunk(2, body)], Repeated(2, rest));
      FieldSizes(2, body, 0, false);
      PendingSize(coins, list[0]);
    }
  }

  lemma {:induction false} RecordMapSize(list: seq<Record>)
    ensures |EncodeAll(Repeated(4, RecordBodies(list)))| == SizeRecordMap(list)
  {
    hide MarshalRecord, SizeRecord, Repeated, Sov;
    RepeatedNone(4);
    if list != [] {
      var body, rest := MarshalRecord(list[0]), RecordBodies(list[1..]);
      RecordMapSize(list[1..]);
      RepeatedFirst(4, body, rest);
      EncodeAppend([Chunk(4, body)], Repeated(4, rest));
      FieldSizes(4, body, 0, false);
      RecordSize(list[0]);
    }
  }

  /** The size prediction of the genesis state is exact. */
  lemma GenesisSize(coins: CoinCodec, g: GenesisState)
    ensures |MarshalGenesis(coins, g)| == SizeGenesis(coins, g)
  {
    hide EncodeAll, Repeated, PendingBodies, RecordBodies, MarshalParams, Word, SizePendingList, SizeRecordMap, SizeParams, WordSize, NestedSize;
    var a, b, c, d := [Chunk(1, MarshalParams(g.params))], Repeated(2, PendingBodies(coins, g.pendingList)),
      Word(3, g.pendingCount), Repeated(4, RecordBodies(g.recordMap));
    EncodeAppend(a, b);
    EncodeAppend(a + b, c);
    EncodeAppend(a + b + c, d);
    FieldSizes(1, MarshalParams(g.params), 0, false);
    ParamsSize(g.params);
    PendingListSize(coins, g.pendingList);
    FieldSizes(3, [], g.pendingCount, false);
    RecordMapSize(g.recordMap);
  }

  /** A body written as one field among others is no longer than the whole. */
  lemma {:induction false} BodyFits(items: seq<Item>, item: Item)
    requires Writable(items) && item in items && item.Chunk?
    ensures |item.body| <= |EncodeAll(items)|
  {
    assert items == [items[0]] + items[1..];
    if item != items[0] {
      assert Writable(items[1..]);
      BodyFits(items[1..], item);
    }
  }

  lemma PendingChunkApplies(coins: CoinCodec, m: GenesisState, p: Pending)
    requires RoundTrips(coins) && |MarshalPending(coins, p)| < TWO_63
    ensures ApplyGenesis(coins)(m, Chunk(2, MarshalPending(coins, p))) == Good(m.(pendingList := m.pendingList + [p]))
  {
    PendingRoundTrip(coins, p);
  }

  lemma RecordChunkApplies(coins: CoinCodec, m: GenesisState, r: Record)
    requires |MarshalRecord(r)| < TWO_63
    ensures ApplyGenesis(coins)(m, Chunk(4, MarshalRecord(r))) == Good(m.(recordMap := m.recordMap + [r]))
  {
    RecordRoundTrip(r);
  }

  lemma {:induction false} PendingListApplies(coins: CoinCodec, m: GenesisState, list: seq<Pending>)
    requires RoundTrips(coins) && forall p :: p in list ==> |MarshalPending(coins, p)| < TWO_63
    ensures ApplyAll(m, Repeated(2, PendingBodies(coins, list)), ApplyGenesis(coins)) == Good(m.(pendingList := m.pendingList + list))
    decreases |list|
  {
    hide MarshalPending, ApplyGenesis, RoundTrips, Repeated;
    if list == [] {
      RepeatedNone(2);
      assert m.pendingList + list == m.pendingList;
    } else {
      var m1 := m.(pendingList := m.pendingList + [list[0]]);
      PendingChunkApplies(coins, m, list[0]);
      RepeatedFirst(2, MarshalPending(coins, list[0]), PendingBodies(coins, list[1..]));
      ApplyFirst(m, Chunk(2, MarshalPending(coins, list[0])), Repeated(2, PendingBodies(coins, list[1..])), ApplyGenesis(coins));
      hide ApplyAll;
      PendingListApplies(coins, m1, list[1..]);
      assert m1.pendingList + list[1..] == m.pendingList + list;
    }
  }

  lemma {:induction false} RecordMapApplies(coins: CoinCodec, m: GenesisState, list: seq<Record>)
    requires forall r :: r in list ==> |MarshalRecord(r)| < TWO_63
    ensures ApplyAll(m, Repeated(4, RecordBodies(list)), ApplyGenesis(coins)) == Good(m.(recordMap := m.recordMap + list))
    decreases |list|
  {
    hide MarshalRecord, ApplyGenesis, Repeated;
    if list == [] {
      RepeatedNone(4);
      assert m.recordMap + list == m.recordMap;
    } else {
      var m1 := m.(recordMap := m.recordMap + [list[0]]);
      RecordChunkApplies(coins, m, list[0]);
      RepeatedFirst(4, MarshalRecord(list[0]), RecordBodies(list[1..]));
      ApplyFirst(m, Chunk(4, MarshalRecord(list[0])), Repeated(4, RecordBodies(list[1..])), ApplyGenesis(coins));
      hide ApplyAll;
      RecordMapApplies(coins, m1, list[1..]);
      assert m1.recordMap + list[1..] == m.recordMap + list;
    }
  }

  lemma {:induction false} BodiesMembers(coins: CoinCodec, pendings: seq<Pending>, records: seq<Record>)
    ensures forall p :: p in pendings ==> MarshalPending(coins, p) in PendingBodies(coins, pendings)
    ensures forall r :: r in records ==> MarshalRecord(r) in RecordBodies(records)
    decreases |pendings| + |records|
  {
    hide MarshalPending, MarshalRecord;
    if pendings != [] {
      BodiesMembers(coins, pendings[1..], records);
      assert pendings == [pendings[0]] + pendings[1..];
    } else if records != [] {
      BodiesMembers(coins, pendings, records[1..]);
      assert records == [records[0]] + records[1..];
    }
  }

  lemma GenesisFits(coins: CoinCodec, g: GenesisState)
    ensures AllFit(GenesisItems(coins, g), GenesisSchema())
    ensures |MarshalGenesis(coins, g)| < TWO_63 ==>
      (forall p :: p in g.pendingList ==> |MarshalPending(coins, p)| < TWO_63)
      && (forall r :: r in g.recordMap ==> |MarshalRecord(r)| < TWO_63)
  {
    hide MarshalPending, MarshalRecord, PendingBodies, RecordBodies, MarshalParams, EncodeAll, Repeated, IsForeign;
    var items := GenesisItems(coins, g);
    BodiesMembers(coins, g.pendingList, g.recordMap);
    forall p | p in g.pendingList ensures |MarshalPending(coins, p)| <= |EncodeAll(items)| {
      assert Chunk(2, MarshalPending(coins, p)) in items;
      BodyFits(items, Chunk(2, MarshalPending(coins, p)));
    }
    forall r | r in g.recordMap ensures |MarshalRecord(r)| <= |EncodeAll(items)| {
      assert Chunk(4, MarshalRecord(r)) in items;
      BodyFits(items, Chunk(4, MarshalRecord(r)));
    }
  }

  lemma MarshalGenesisIs(coins: CoinCodec, g: GenesisState)
    requires AllFit(GenesisItems(coins, g), GenesisSchema())
    ensures MarshalGenesis(coins, g) == EncodeAll(GenesisItems(coins, g))
  {
  }

  /** Decoding the bytes of g into m merges the parameters, appends the lists in order, and overrides the count. */
  lemma GenesisMerge(coins: CoinCodec, m: GenesisState, g: GenesisState)
    requires RoundTrips(coins) && |MarshalGenesis(coins, g)| < TWO_63
    ensures UnmarshalGenesis(coins, MarshalGenesis(coins, g), m) == Good(MergeGenesis(m, g))
  {
    GenesisFits(coins, g);
    MarshalGenesisIs(coins, g);
    var apply := ApplyGenesis(coins);
    var a, b, c, d := [Chunk(1, MarshalParams(g.params))], Repeated(2, PendingBodies(coins, g.pendingList)), Word(3, g.pendingCount),
      Repeated(4, RecordBodies(g.recordMap));
    ParamsMerge(m.params, g.params);
    hide MarshalPending, MarshalRecord, PendingBodies, RecordBodies, MarshalParams, UnmarshalParams, EncodeAll, Repeated, Fold, AllFit, MarshalGenesis;
    ApplyOne(m, Chunk(1, MarshalParams(g.params)), apply);
    var m1 := m.(params := MergeParams(m.params, g.params));
    var m2 := m1.(pendingList := m.pendingList + g.pendingList);
    var m3 := m2.(pendingCount := Messages.Pick(m.pendingCount, g.pendingCount));
    PendingListApplies(coins, m1, g.pendingList);
    ApplyOne(m2, Number(3, g.pendingCount), apply);
    RecordMapApplies(coins, m3, g.recordMap);
    ApplyAppend(m, a, b, apply);
    ApplyAppend(m, a + b, c, apply);
    ApplyAppend(m, a + b + c, d, apply);
    FoldItems(GenesisItems(coins, g), m, GenesisSchema(), apply);
  }

  /** The round trip of the genesis state: every entry and tally back, in the order they were written. */
  lemma GenesisRoundTrip(coins: CoinCodec, g: GenesisState)
    requires RoundTrips(coins) && |MarshalGenesis(coins, g)| < TWO_63
    ensures UnmarshalGenesis(coins, MarshalGenesis(coins, g), NO_GENESIS) == Good(g)
  {
    hide MarshalGenesis, UnmarshalGenesis;
    GenesisMerge(coins, NO_GENESIS, g);
    assert MergeGenesis(NO_GENESIS, g) == g by {
      assert [] + g.pendingList == g.pendingList && [] + g.recordMap == g.recordMap;
    }
  }

  lemma GenesisConcat(coins: CoinCodec, a: GenesisState, b: GenesisState)
    requires RoundTrips(coins) && |MarshalGenesis(coins, a) + MarshalGenesis(coins, b)| < TWO_63
    ensures UnmarshalGenesis(coins, MarshalGenesis(coins, a) + MarshalGenesis(coins, b), NO_GENESIS) == Good(MergeGenesis(a, b))
  {
    GenesisRoundTrip(coins, a);
    GenesisMerge(coins, a, b);
    hide MarshalGenesis;
    FoldConcat(MarshalGenesis(coins, a), MarshalGenesis(coins, b), NO_GENESIS, GenesisSchema(), ApplyGenesis(coins));
  }

  // ---- Transactions ----

  function UpdateParamsItems(u: MsgUpdateParams): seq<Item> {
    Text(1, u.authority) + [Chunk(2, MarshalParams(u.params))]
  }

  function UpdateParamsSchema(): Schema {
    map[1 := AsBytes, 2 := AsBytes]
  }

  function ApplyUpdateParams(m: MsgUpdateParams, item: Item): Decoded<MsgUpdateParams> {
    match item
    case Chunk(1, s) => Good(m.(authority := s))
    case Chunk(2, body) =>
      (match UnmarshalParams(body, m.params)
       case Bad(e) => Bad(e)
       case Good(p) => Good(m.(params := p)))
    case _ => Good(m)
  }

  function MarshalUpdateParams(u: MsgUpdateParams): Bytes {
    EncodeAll(UpdateParamsItems(u))
  }

  function UnmarshalUpdateParams(data: Bytes, m: MsgUpdateParams): Decoded<MsgUpdateParams> {
    Fold(data, 0, m, UpdateParamsSchema(), ApplyUpdateParams)
  }

  function SizeUpdateParams(u: MsgUpdateParams): nat {
    TextSize(u.authority) + NestedSize(SizeParams(u.params))
  }

  function MergeUpdateParams(a: MsgUpdateParams, b: MsgUpdateParams): MsgUpdateParams {
    MsgUpdateParams(if b.authority == [] then a.authority else b.authority, MergeParams(a.params, b.params))
  }

  lemma UpdateParamsSize(u: MsgUpdateParams)
    ensures |MarshalUpdateParams(u)| == SizeUpdateParams(u)
  {
    EncodeAppend(Text(1, u.authority), [Chunk(2, MarshalParams(u.params))]);
    FieldSizes(1, u.authority, 0, false);
    FieldSizes(2, MarshalParams(u.params), 0, false);
    ParamsSize(u.params);
  }

  lemma UpdateParamsMerge(m: MsgUpdateParams, u: MsgUpdateParams)
    requires |MarshalUpdateParams(u)| < TWO_63
    ensures UnmarshalUpdateParams(MarshalUpdateParams(u), m) == Good(MergeUpdateParams(m, u))
  {
    hide ApplyAll, Fold, EncodeAll, MarshalParams, UnmarshalParams;
    var a, b := Text(1, u.authority), [Chunk(2, MarshalParams(u.params))];
    ParamsMerge(m.params, u.params);
    ApplyOne(m, Chunk(1, u.authority), ApplyUpdateParams);
    var m1 := ApplyAll(m, a, ApplyUpdateParams).value;
    ApplyOne(m1, Chunk(2, MarshalParams(u.params)), ApplyUpdateParams);
    ApplyAppend(m, a, b, ApplyUpdateParams);
    assert AllFit(UpdateParamsItems(u), UpdateParamsSchema());
    FoldItems(UpdateParamsItems(u), m, UpdateParamsSchema(), ApplyUpdateParams);
  }

  lemma UpdateParamsRoundTrip(u: MsgUpdateParams)
    requires |MarshalUpdateParams(u)| < TWO_63
    ensures UnmarshalUpdateParams(MarshalUpdateParams(u), MsgUpdateParams([], NO_PARAMS)) == Good(u)
  {
    UpdateParamsMerge(MsgUpdateParams([], NO_PARAMS), u);
  }

  function CancelSendItems(c: MsgCancelSend): seq<Item> {
    Text(1, c.creator) + Word(2, c.id)
  }

  function CancelSendSchema(): Schema {
    map[1 := AsBytes, 2 := AsVarint]
  }

  function ApplyCancelSend(m: MsgCancelSend, item: Item): Decoded<MsgCancelSend> {
    match item
    case Chunk(1, s) => Good(m.(creator := s))
    case Number(2, v) => Good(m.(id := v))
    case _ => Good(m)
  }

  function MarshalCancelSend(c: MsgCancelSend): Bytes {
    EncodeAll(CancelSendItems(c))
  }

  function UnmarshalCancelSend(data: Bytes, m: MsgCancelSend): Decoded<MsgCancelSend> {
    Fold(data, 0, m, CancelSendSchema(), ApplyCancelSend)
  }

  function SizeCancelSend(c: MsgCancelSend): nat {
    TextSize(c.creator) + WordSize(c.id)
  }

  lemma CancelSendSize(c: MsgCancelSend)
    ensures |MarshalCancelSend(c)| == SizeCancelSend(c)
  {
    EncodeAppend(Text(1, c.creator), Word(2, c.id));
    FieldSizes(1, c.creator, 0, false);
    FieldSizes(2, [], c.id, false);
  }

  lemma CancelSendRoundTrip(c: MsgCancelSend)
    requires |MarshalCancelSend(c)| < TWO_63
    ensures UnmarshalCancelSend(MarshalCancelSend(c), MsgCancelSend([], 0)) == Good(c)
  {
    var a, b := Text(1, c.creator), Word(2, c.id);
    var m := MsgCancelSend([], 0);
    ApplyOne(m, Chunk(1, c.creator), ApplyCancelSend);
    ApplyOne(m.(creator := c.creator), Number(2, c.id), ApplyCancelSend);
    ApplyAppend(m, a, b, ApplyCancelSend);
    assert AllFit(CancelSendItems(c), CancelSendSchema());
    FoldItems(CancelSendItems(c), m, CancelSendSchema(), ApplyCancelSend);
  }

  function SetFinalOnlyItems(s: MsgSetFinalOnly): seq<Item> {
    Text(1, s.creator) + Flag(2, s.finalOnly)
  }

  function SetFinalOnlySchema(): Schema {
    map[1 := AsBytes, 2 := AsVarint]
  }

  function ApplySetFinalOnly(m: MsgSetFinalOnly, item: Item): Decoded<MsgSetFinalOnly> {
    match item
    case Chunk(1, s) => Good(m.(creator := s))
    case Number(2, v) => Good(m.(finalOnly := v != 0))
    case _ => Good(m)
  }

  function MarshalSetFinalOnly(s: MsgSetFinalOnly): Bytes {
    EncodeAll(SetFinalOnlyItems(s))
  }

  function UnmarshalSetFinalOnly(data: Bytes, m: MsgSetFinalOnly): Decoded<MsgSetFinalOnly> {
    Fold(data, 0, m, SetFinalOnlySchema(), ApplySetFinalOnly)
  }

  function SizeSetFinalOnly(s: MsgSetFinalOnly): nat {
    TextSize(s.creator) + FlagSize(s.finalOnly)
  }

  lemma SetFinalOnlySize(s: MsgSetFinalOnly)
    ensures |MarshalSetFinalOnly(s)| == SizeSetFinalOnly(s)
  {
    EncodeAppend(Text(1, s.creator), Flag(2, s.finalOnly));
    FieldSizes(1, s.creator, 0, false);
    FieldSizes(2, [], 0, s.finalOnly);
  }

  lemma SetFinalOnlyRoundTrip(s: MsgSetFinalOnly)
    requires |MarshalSetFinalOnly(s)| < TWO_63
    ensures UnmarshalSetFinalOnly(MarshalSetFinalOnly(s), MsgSetFinalOnly([], false)) == Good(s)
  {
    var a, b := Text(1, s.creator), Flag(2, s.finalOnly);
    var m := MsgSetFinalOnly([], false);
    ApplyOne(m, Chunk(1, s.creator), ApplySetFinalOnly);
    ApplyOne(m.(creator := s.creator), Number(2, 1), ApplySetFinalOnly);
    ApplyAppend(m, a, b, ApplySetFinalOnly);
    assert AllFit(SetFinalOnlyItems(s), SetFinalOnlySchema());
    FoldItems(SetFinalOnlyItems(s), m, SetFinalOnlySchema(), ApplySetFinalOnly);
  }

  function DelayedSendItems(coins: CoinCodec, d: MsgDelayedSend): seq<Item> {
    Text(1, d.creator) + Text(2, d.recipient) + [Chunk(3, coins.encode(d.amount))] + Word(4, d.window)
  }

  function MarshalDelayedSend(coins: CoinCodec, d: MsgDelayedSend): Bytes {
    EncodeAll(DelayedSendItems(coins, d))
  }

  function SizeDelayedSend(coins: CoinCodec, d: MsgDelayedSend): nat {
    TextSize(d.creator) + TextSize(d.recipient) + NestedSize(|coins.encode(d.amount)|) + WordSize(d.window)
  }

  function DelayedSendSchema(): Schema {
    map[1 := AsBytes, 2 := AsBytes, 3 := AsBytes, 4 := AsVarint]
  }

  function ApplyDelayedSend(coins: CoinCodec): (MsgDelayedSend, Item) -> Decoded<MsgDelayedSend> {
    (m: MsgDelayedSend, item: Item) =>
      match item
      case Chunk(1, s) => Good(m.(creator := s))
      case Chunk(2, s) => Good(m.(recipient := s))
      case Chunk(3, body) =>
        (match coins.decode(m.amount, body)
         case Bad(e) => Bad(e)
         case Good(c) => Good(m.(amount := c)))
      case Number(4, v) => Good(m.(window := v))
      case _ => Good(m)
  }

  const NO_SEND := MsgDelayedSend([], [], NO_COIN, 0)

  function UnmarshalDelayedSend(coins: CoinCodec, data: Bytes, m: MsgDelayedSend): Decoded<MsgDelayedSend> {
    Fold(data, 0, m, DelayedSendSchema(), ApplyDelayedSend(coins))
  }

  lemma DelayedSendSize(coins: CoinCodec, d: MsgDelayedSend)
    ensures |MarshalDelayedSend(coins, d)| == SizeDelayedSend(coins, d)
  {
    var a, b, c, e := Text(1, d.creator), Text(2, d.recipient), [Chunk(3, coins.encode(d.amount))], Word(4, d.window);
    EncodeAppend(a, b);
    EncodeAppend(a + b, c);
    EncodeAppend(a + b + c, e);
    FieldSizes(1, d.creator, 0, false);
    FieldSizes(2, d.recipient, 0, false);
    FieldSizes(3, coins.encode(d.amount), 0, false);
    FieldSizes(4, [], d.window, false);
  }

  lemma DelayedSendFields(coins: CoinCodec, m: MsgDelayedSend, v: U64, s: Str, body: Bytes)
    ensures ApplyDelayedSend(coins)(m, Chunk(1, s)) == Good(m.(creator := s))
    ensures ApplyDelayedSend(coins)(m, Chunk(2, s)) == Good(m.(recipient := s))
    ensures coins.decode(m.amount, body).Good? ==>
      ApplyDelayedSend(coins)(m, Chunk(3, body)) == Good(m.(amount := coins.decode(m.amount, body).value))
    ensures ApplyDelayedSend(coins)(m, Number(4, v)) == Good(m.(window := v))
  {
  }

  lemma DelayedSendSteps(coins: CoinCodec, d: MsgDelayedSend, last: seq<Item>, m1: MsgDelayedSend, m2: MsgDelayedSend, m3: MsgDelayedSend)
    requires RoundTrips(coins) && (last == [Number(4, d.window)] || (last == [] && d.window == 0))
    requires m1 == NO_SEND.(creator := d.creator) && m2 == m1.(recipient := d.recipient) && m3 == m2.(amount := d.amount)
    ensures var apply := ApplyDelayedSend(coins);
      && ApplyAll(NO_SEND, Text(1, d.creator), apply) == Good(m1)
      && ApplyAll(m1, Text(2, d.recipient), apply) == Good(m2)
      && ApplyAll(m2, [Chunk(3, coins.encode(d.amount))], apply) == Good(m3)
      && ApplyAll(m3, last, apply) == Good(d)
  {
    DelayedSendFields(coins, NO_SEND, 0, d.creator, []);
    DelayedSendFields(coins, m1, 0, d.recipient, []);
    DelayedSendFields(coins, m2, 0, [], coins.encode(d.amount));
    DelayedSendFields(coins, m3, d.window, [], []);
    assert coins.decode(m2.amount, coins.encode(d.amount)) == Good(d.amount);
    hide ApplyAll, Text, ApplyDelayedSend, RoundTrips;
    var apply := ApplyDelayedSend(coins);
    ApplyText(NO_SEND, 1, d.creator, m1, apply);
    ApplyText(m1, 2, d.recipient, m2, apply);
    ApplyOne(m2, Chunk(3, coins.encode(d.amount)), apply);
    ApplyOne(m3, Number(4, d.window), apply);
  }

  /** What is read from the bytes of a send, whether or not a window of zero is written out. */
  lemma DelayedSendReads(coins: CoinCodec, d: MsgDelayedSend, last: seq<Item>)
    requires RoundTrips(coins) && (last == [Number(4, d.window)] || (last == [] && d.window == 0))
    requires |EncodeAll(Text(1, d.creator) + Text(2, d.recipient) + [Chunk(3, coins.encode(d.amount))] + last)| < TWO_63
    ensures UnmarshalDelayedSend(coins, EncodeAll(Text(1, d.creator) + Text(2, d.recipient) + [Chunk(3, coins.encode(d.amount))] + last), NO_SEND) == Good(d)
  {
    hide Fold, EncodeAll;
    var apply := ApplyDelayedSend(coins);
    var a, b, c := Text(1, d.creator), Text(2, d.recipient), [Chunk(3, coins.encode(d.amount))];
    var m0 := NO_SEND;
    var m1 := m0.(creator := d.creator);
    var m2 := m1.(recipient := d.recipient);
    var m3 := m2.(amount := d.amount);
    assert AllFit(a + b + c + last, DelayedSendSchema());
    DelayedSendSteps(coins, d, last, m1, m2, m3);
    hide ApplyAll, ApplyDelayedSend, Text, AllFit;
    ApplyAppend(m0, a, b, apply);
    ApplyAppend(m0, a + b, c, apply);
    ApplyAppend(m0, a + b + c, last, apply);
    FoldItems(a + b + c + last, m0, DelayedSendSchema(), apply);
  }

  lemma DelayedSendRoundTrip(coins: CoinCodec, d: MsgDelayedSend)
    requires RoundTrips(coins) && |MarshalDelayedSend(coins, d)| < TWO_63
    ensures UnmarshalDelayedSend(coins, MarshalDelayedSend(coins, d), NO_SEND) == Good(d)
  {
    hide Fold, EncodeAll, Text;
    DelayedSendReads(coins, d, Word(4, d.window));
  }
}
