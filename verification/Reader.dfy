/** The generated unmarshallers: cursors over the input, with the 64-bit arithmetic and the negative checks
    of the source. Each is proved to give exactly the decoding of Wire; that the methods verify at all says
    they end on every input and never look outside it. */
module Reader {
  import opened Words
  import opened Types
  import opened Varints
  import opened Skips
  import opened Wire
  import opened Messages
  import opened NestedMessages

  // ---- The inner loops ----

  method DecodeVarint(data: Bytes, start: nat) returns (r: Decoded<(U64, nat)>)
    ensures r == ReadVarint(data, start)
  {
    hide Value, Shl, Scan, WrapU64, And, Or, Pow2, Pow128;
    var shift, i, wire: U64 := 0, start, 0;
    while true
      invariant start <= i <= start + 10 && shift == 7 * (i - start)
      invariant i > start ==> i <= |data|
      invariant i < start + 10 ==> wire == if i == start then 0 else Value(data[start..i])
      invariant Scan(data, start, 0) == Scan(data, i, i - start)
      decreases start + 10 - i
    {
      ScanTurn(data, i, i - start);
      if shift >= 64 { return Bad(IntOverflow); }
      if i >= |data| { return Bad(UnexpectedEOF); }
      var b := data[i];
      VarintTurn(data, start, i);
      BitsAreSums(wire, b, shift);
      i := i + 1;
      wire := Or(wire, Shl(And(b, 0x7f), shift));
      if b < 128 { return Good((wire, i)); }
      shift := shift + 7;
    }
  }

  lemma ScanTurn(data: Bytes, pos: nat, seen: nat)
    ensures Scan(data, pos, seen) ==
      if seen >= 10 then Bad(IntOverflow)
      else if pos >= |data| then Bad(UnexpectedEOF)
      else if data[pos] < 128 then Good(pos + 1)
      else Scan(data, pos + 1, seen + 1)
  {
  }

  lemma VarintTurn(data: Bytes, start: nat, i: nat)
    requires start <= i < start + 10 && i < |data|
    ensures Value(data[start..i]) + Shl(data[i] % 128, 7 * (i - start)) == WrapU64(Value(data[start..i + 1]))
    ensures i < start + 9 ==> WrapU64(Value(data[start..i + 1])) == Value(data[start..i + 1])
    ensures i == start ==> Value(data[start..i]) == 0
    ensures Value(data[start..i]) < Pow2(7 * (i - start))
  {
    NoValue();
    ValueAppend(data[start..i], 0);
    Pow2Is128(i - start);
    hide Value, Shl, WrapU64;
    assert data[start..i + 1] == data[start..i] + [data[i]];
    ReadTurn(data[start..i], data[i]);
    if i < start + 9 {
      ReadTurn(data[start..i + 1], 0);
      WordKept(Value(data[start..i + 1]));
    }
    if i == start { assert data[start..i] == []; }
  }

  lemma NoValue()
    ensures Value([]) == 0
  {
  }

  lemma WordKept(n: nat)
    requires n < TWO_64
    ensures WrapU64(n) == n
  {
  }

  method PassVarint(data: Bytes, start: nat) returns (r: Decoded<nat>)
    ensures r == Scan(data, start, 0)
  {
    var shift, i := 0, start;
    while true
      invariant start <= i <= start + 10 && shift == 7 * (i - start)
      invariant Scan(data, start, 0) == Scan(data, i, i - start)
      decreases start + 10 - i
    {
      if shift >= 64 { return Bad(IntOverflow); }
      if i >= |data| { return Bad(UnexpectedEOF); }
      i := i + 1;
      if data[i - 1] < 128 { return Good(i); }
      shift := shift + 7;
    }
  }

  method DecodeChunk(data: Bytes, start: nat) returns (r: Decoded<(Bytes, nat)>)
    requires |data| < TWO_63
    ensures r == ReadChunk(data, start)
  {
    var head := DecodeVarint(data, start);
    if head.Bad? { return Bad(head.error); }
    var i := head.value.1;
    var length := ToI64(head.value.0);
    if length < 0 { return Bad(InvalidLength); }
    var postIndex := WrapI64(i + length);
    if postIndex < 0 { return Bad(InvalidLength); }
    if postIndex > |data| { return Bad(UnexpectedEOF); }
    return Good((data[i..postIndex], postIndex));
  }

  // ---- Unknown fields ----

  /** One turn of the skipping loop. */
  method PassToken(data: Bytes, start: nat, depth: nat) returns (r: Decoded<(nat, nat)>)
    requires start < |data| < TWO_63
    ensures r == Token(data, start, depth)
  {
    hide ReadVarint, Scan;
    var head := DecodeVarint(data, start);
    if head.Bad? { return Bad(head.error); }
    var wireType := head.value.0 % 8;
    var i: I64 := head.value.1;
    var d := depth;
    if wireType == 0 {
      var end := PassVarint(data, i);
      if end.Bad? { return Bad(end.error); }
      i := end.value;
    } else if wireType == 1 {
      i := WrapI64(i + 8);
    } else if wireType == 2 {
      var size := DecodeVarint(data, i);
      if size.Bad? { return Bad(size.error); }
      var length := ToI64(size.value.0);
      if length < 0 { return Bad(InvalidLength); }
      i := WrapI64(size.value.1 + length);
    } else if wireType == 3 {
      d := d + 1;
    } else if wireType == 4 {
      if d == 0 { return Bad(UnexpectedEndOfGroup); }
      d := d - 1;
    } else if wireType == 5 {
      i := WrapI64(i + 4);
    } else {
      return Bad(IllegalWireType);
    }
    if i < 0 { return Bad(InvalidLength); }
    return Good((i, d));
  }

  method SkipField(data: Bytes) returns (r: Decoded<nat>)
    requires |data| < TWO_63
    ensures r == Skip(data)
  {
    hide Token;
    var i, depth := 0, 0;
    while i < |data|
      invariant Skip(data) == SkipFrom(data, i, depth)
    {
      var token := PassToken(data, i, depth);
      if token.Bad? { return Bad(token.error); }
      i, depth := token.value.0, token.value.1;
      if depth == 0 { return Good(i); }
    }
    return Bad(UnexpectedEOF);
  }

  method PassUnknown(data: Bytes, preIndex: nat) returns (r: Decoded<(Item, nat)>)
    requires preIndex <= |data| < TWO_63
    ensures r == ReadUnknown(data, preIndex)
  {
    var skippy := SkipField(data[preIndex..]);
    if skippy.Bad? { return Bad(skippy.error); }
    var next := WrapI64(preIndex + skippy.value);
    if skippy.value < 0 || next < 0 { return Bad(InvalidLength); }
    if next > |data| { return Bad(UnexpectedEOF); }
    return Good((Unknown(data[preIndex..next]), next));
  }

  // ---- One turn of a decoding loop ----

  /** The tag at start: the field number, the wire type, and the position behind it. */
  method DecodeTag(data: Bytes, start: nat) returns (r: Decoded<(U64, nat)>)
    ensures r.Bad? ==> ReadVarint(data, start).Bad? || r.error == EndGroupForNonGroup || r.error == IllegalTag
    ensures r.Bad? ==> forall schema :: start <= |data| ==> NextItem(data, start, schema) == Bad(r.error)
    ensures r.Good? ==> ReadVarint(data, start) == r && r.value.0 % 8 != 4 && FieldNum(r.value.0) > 0
  {
    var head := DecodeVarint(data, start);
    if head.Bad? { return Bad(head.error); }
    if head.value.0 % 8 == 4 { return Bad(EndGroupForNonGroup); }
    if FieldNum(head.value.0) <= 0 { return Bad(IllegalTag); }
    return head;
  }

  /** A known scalar field behind its tag. */
  method DecodeScalar(data: Bytes, wire: U64, i: nat) returns (r: Decoded<(U64, nat)>)
    ensures r == if wire % 8 != 0 then Bad(WrongWireType) else ReadVarint(data, i)
  {
    if wire % 8 != 0 { return Bad(WrongWireType); }
    r := DecodeVarint(data, i);
  }

  /** A known length-delimited field behind its tag. */
  method DecodeBytes(data: Bytes, wire: U64, i: nat) returns (r: Decoded<(Bytes, nat)>)
    requires |data| < TWO_63
    ensures r == if wire % 8 != 2 then Bad(WrongWireType) else ReadChunk(data, i)
  {
    if wire % 8 != 2 { return Bad(WrongWireType); }
    r := DecodeChunk(data, i);
  }

  // ---- Messages ----

  method DecodeRecord(data: Bytes, start: Record) returns (r: Decoded<Record>)
    requires |data| < TWO_63
    ensures r == UnmarshalRecord(data, start)
  {
    hide ReadVarint, ReadChunk, ReadUnknown, FieldNum;
    var m, i := start, 0;
    while i < |data|
      invariant 0 <= i <= |data|
      invariant Fold(data, i, m, RecordSchema(), ApplyRecord) == UnmarshalRecord(data, start)
    {
      var preIndex := i;
      var tag := DecodeTag(data, i);
      if tag.Bad? { return Bad(tag.error); }
      var wire := tag.value.0;
      i := tag.value.1;
      match FieldNum(wire)
      case 1 =>
        var f := DecodeBytes(data, wire, i);
        if f.Bad? { return Bad(f.error); }
        m, i := m.(index := f.value.0), f.value.1;
      case 2 =>
        var f := DecodeScalar(data, wire, i);
        if f.Bad? { return Bad(f.error); }
        m, i := m.(sent := f.value.0), f.value.1;
      case 3 =>
        var f := DecodeScalar(data, wire, i);
        if f.Bad? { return Bad(f.error); }
        m, i := m.(cancelled := f.value.0), f.value.1;
      case 4 =>
        var f := DecodeScalar(data, wire, i);
        if f.Bad? { return Bad(f.error); }
        m, i := m.(finalOnly := f.value.0 != 0), f.value.1;
      case _ =>
        var f := PassUnknown(data, preIndex);
        if f.Bad? { return Bad(f.error); }
        i := f.value.1;
    }
    return Good(m);
  }

  method DecodeParams(data: Bytes, start: Params) returns (r: Decoded<Params>)
    requires |data| < TWO_63
    ensures r == UnmarshalParams(data, start)
  {
    hide ReadVarint, ReadChunk, ReadUnknown, FieldNum;
    var m, i := start, 0;
    while i < |data|
      invariant 0 <= i <= |data|
      invariant Fold(data, i, m, ParamsSchema(), ApplyParams) == UnmarshalParams(data, start)
    {
      var preIndex := i;
      var tag := DecodeTag(data, i);
      if tag.Bad? { return Bad(tag.error); }
      var wire := tag.value.0;
      i := tag.value.1;
      match FieldNum(wire)
      case 1 =>
        var f := DecodeScalar(data, wire, i);
        if f.Bad? { return Bad(f.error); }
        m, i := m.(minWindow := f.value.0), f.value.1;
      case 2 =>
        var f := DecodeScalar(data, wire, i);
        if f.Bad? { return Bad(f.error); }
        m, i := m.(defaultWindow := f.value.0), f.value.1;
      case 3 =>
        var f := DecodeScalar(data, wire, i);
        if f.Bad? { return Bad(f.error); }
        m, i := m.(maxWindow := f.value.0), f.value.1;
      case _ =>
        var f := PassUnknown(data, preIndex);
        if f.Bad? { return Bad(f.error); }
        i := f.value.1;
    }
    return Good(m);
  }

  method DecodePending(coins: CoinCodec, data: Bytes, start: Pending) returns (r: Decoded<Pending>)
    requires |data| < TWO_63
    ensures r == UnmarshalPending(coins, data, start)
  {
    hide ReadVarint, ReadChunk, ReadUnknown, FieldNum;
    var m, i := start, 0;
    while i < |data|
      invariant 0 <= i <= |data|
      invariant Fold(data, i, m, PendingSchema(), ApplyPending(coins)) == UnmarshalPending(coins, data, start)
    {
      var preIndex := i;
      var tag := DecodeTag(data, i);
      if tag.Bad? { return Bad(tag.error); }
      var wire := tag.value.0;
      i := tag.value.1;
      match FieldNum(wire)
      case 1 =>
        var f := DecodeScalar(data, wire, i);
        if f.Bad? { return Bad(f.error); }
        m, i := m.(id := f.value.0), f.value.1;
      case 2 =>
        var f := DecodeBytes(data, wire, i);
        if f.Bad? { return Bad(f.error); }
        m, i := m.(sender := f.value.0), f.value.1;
      case 3 =>
        var f := DecodeBytes(data, wire, i);
        if f.Bad? { return Bad(f.error); }
        m, i := m.(recipient := f.value.0), f.value.1;
      case 4 =>
        var f := DecodeBytes(data, wire, i);
        if f.Bad? { return Bad(f.error); }
        var c := coins.decode(m.amount, f.value.0);
        if c.Bad? { return Bad(c.error); }
        m := m.(amount := c.value);
        i := f.value.1;
      case 5 =>
        var f := DecodeScalar(data, wire, i);
        if f.Bad? { return Bad(f.error); }
        m, i := m.(executeAt := ToI64(f.value.0)), f.value.1;
      case _ =>
        var f := PassUnknown(data, preIndex);
        if f.Bad? { return Bad(f.error); }
        i := f.value.1;
    }
    return Good(m);
  }

  method DecodeGenesis(coins: CoinCodec, data: Bytes, start: GenesisState) returns (r: Decoded<GenesisState>)
    requires |data| < TWO_63
    ensures r == UnmarshalGenesis(coins, data, start)
  {
    hide ReadVarint, ReadChunk, ReadUnknown, FieldNum, UnmarshalParams, UnmarshalPending, UnmarshalRecord;
    var m, i := start, 0;
    while i < |data|
      invariant 0 <= i <= |data|
      invariant Fold(data, i, m, GenesisSchema(), ApplyGenesis(coins)) == UnmarshalGenesis(coins, data, start)
    {
      var preIndex := i;
      var tag := DecodeTag(data, i);
      if tag.Bad? { return Bad(tag.error); }
      var wire := tag.value.0;
      i := tag.value.1;
      match FieldNum(wire)
      case 1 =>
        var f := DecodeBytes(data, wire, i);
        if f.Bad? { return Bad(f.error); }
        var inner := DecodeParams(f.value.0, m.params);
        if inner.Bad? { return Bad(inner.error); }
        m := m.(params := inner.value);
        i := f.value.1;
      case 2 =>
        var f := DecodeBytes(data, wire, i);
        if f.Bad? { return Bad(f.error); }
        var inner := DecodePending(coins, f.value.0, NO_PENDING);
        if inner.Bad? { return Bad(inner.error); }
        m := m.(pendingList := m.pendingList + [inner.value]);
        i := f.value.1;
      case 3 =>
        var f := DecodeScalar(data, wire, i);
        if f.Bad? { return Bad(f.error); }
        m, i := m.(pendingCount := f.value.0), f.value.1;
      case 4 =>
        var f := DecodeBytes(data, wire, i);
        if f.Bad? { return Bad(f.error); }
        var inner := DecodeRecord(f.value.0, NO_RECORD);
        if inner.Bad? { return Bad(inner.error); }
        m := m.(recordMap := m.recordMap + [inner.value]);
        i := f.value.1;
      case _ =>
        var f := PassUnknown(data, preIndex);
        if f.Bad? { return Bad(f.error); }
        i := f.value.1;
    }
    return Good(m);
  }

  method DecodeUpdateParams(data: Bytes, start: MsgUpdateParams) returns (r: Decoded<MsgUpdateParams>)
    requires |data| < TWO_63
    ensures r == UnmarshalUpdateParams(data, start)
  {
    hide ReadVarint, ReadChunk, ReadUnknown, FieldNum, UnmarshalParams;
    var m, i := start, 0;
    while i < |data|
      invariant 0 <= i <= |data|
      invariant Fold(data, i, m, UpdateParamsSchema(), ApplyUpdateParams) == UnmarshalUpdateParams(data, start)
    {
      var preIndex := i;
      var tag := DecodeTag(data, i);
      if tag.Bad? { return Bad(tag.error); }
      var wire := tag.value.0;
      i := tag.value.1;
      match FieldNum(wire)
      case 1 =>
        var f := DecodeBytes(data, wire, i);
        if f.Bad? { return Bad(f.error); }
        m, i := m.(authority := f.value.0), f.value.1;
      case 2 =>
        var f := DecodeBytes(data, wire, i);
        if f.Bad? { return Bad(f.error); }
        var inner := DecodeParams(f.value.0, m.params);
        if inner.Bad? { return Bad(inner.error); }
        m := m.(params := inner.value);
        i := f.value.1;
      case _ =>
        var f := PassUnknown(data, preIndex);
        if f.Bad? { return Bad(f.error); }
        i := f.value.1;
    }
    return Good(m);
  }

  method DecodeDelayedSend(coins: CoinCodec, data: Bytes, start: MsgDelayedSend) returns (r: Decoded<MsgDelayedSend>)
    requires |data| < TWO_63
    ensures r == UnmarshalDelayedSend(coins, data, start)
  {
    hide ReadVarint, ReadChunk, ReadUnknown, FieldNum;
    var m, i := start, 0;
    while i < |data|
      invariant 0 <= i <= |data|
      invariant Fold(data, i, m, DelayedSendSchema(), ApplyDelayedSend(coins)) == UnmarshalDelayedSend(coins, data, start)
    {
      var preIndex := i;
      var tag := DecodeTag(data, i);
      if tag.Bad? { return Bad(tag.error); }
      var wire := tag.value.0;
      i := tag.value.1;
      match FieldNum(wire)
      case 1 =>
        var f := DecodeBytes(data, wire, i);
        if f.Bad? { return Bad(f.error); }
        m, i := m.(creator := f.value.0), f.value.1;
      case 2 =>
        var f := DecodeBytes(data, wire, i);
        if f.Bad? { return Bad(f.error); }
        m, i := m.(recipient := f.value.0), f.value.1;
      case 3 =>
        var f := DecodeBytes(data, wire, i);
        if f.Bad? { return Bad(f.error); }
        var c := coins.decode(m.amount, f.value.0);
        if c.Bad? { return Bad(c.error); }
        m := m.(amount := c.value);
        i := f.value.1;
      case 4 =>
        var f := DecodeScalar(data, wire, i);
        if f.Bad? { return Bad(f.error); }
        m, i := m.(window := f.value.0), f.value.1;
      case _ =>
        var f := PassUnknown(data, preIndex);
        if f.Bad? { return Bad(f.error); }
        i := f.value.1;
    }
    return Good(m);
  }

  method DecodeCancelSend(data: Bytes, start: MsgCancelSend) returns (r: Decoded<MsgCancelSend>)
    requires |data| < TWO_63
    ensures r == UnmarshalCancelSend(data, start)
  {
    hide ReadVarint, ReadChunk, ReadUnknown, FieldNum;
    var m, i := start, 0;
    while i < |data|
      invariant 0 <= i <= |data|
      invariant Fold(data, i, m, CancelSendSchema(), ApplyCancelSend) == UnmarshalCancelSend(data, start)
    {
      var preIndex := i;
      var tag := DecodeTag(data, i);
      if tag.Bad? { return Bad(tag.error); }
      var wire := tag.value.0;
      i := tag.value.1;
      match FieldNum(wire)
      case 1 =>
        var f := DecodeBytes(data, wire, i);
        if f.Bad? { return Bad(f.error); }
        m, i := m.(creator := f.value.0), f.value.1;
      case 2 =>
        var f := DecodeScalar(data, wire, i);
        if f.Bad? { return Bad(f.error); }
        m, i := m.(id := f.value.0), f.value.1;
      case _ =>
        var f := PassUnknown(data, preIndex);
        if f.Bad? { return Bad(f.error); }
        i := f.value.1;
    }
    return Good(m);
  }

  method DecodeSetFinalOnly(data: Bytes, start: MsgSetFinalOnly) returns (r: Decoded<MsgSetFinalOnly>)
    requires |data| < TWO_63
    ensures r == UnmarshalSetFinalOnly(data, start)
  {
    hide ReadVarint, ReadChunk, ReadUnknown, FieldNum;
    var m, i := start, 0;
    while i < |data|
      invariant 0 <= i <= |data|
      invariant Fold(data, i, m, SetFinalOnlySchema(), ApplySetFinalOnly) == UnmarshalSetFinalOnly(data, start)
    {
      var preIndex := i;
      var tag := DecodeTag(data, i);
      if tag.Bad? { return Bad(tag.error); }
      var wire := tag.value.0;
      i := tag.value.1;
      match FieldNum(wire)
      case 1 =>
        var f := DecodeBytes(data, wire, i);
        if f.Bad? { return Bad(f.error); }
        m, i := m.(creator := f.value.0), f.value.1;
      case 2 =>
        var f := DecodeScalar(data, wire, i);
        if f.Bad? { return Bad(f.error); }
        m, i := m.(finalOnly := f.value.0 != 0), f.value.1;
      case _ =>
        var f := PassUnknown(data, preIndex);
        if f.Bad? { return Bad(f.error); }
        i := f.value.1;
    }
    return Good(m);
  }
}
