/** The generated marshallers: they fill a buffer backwards, in place. Each is proved to leave exactly the
    forward encoding of its message before the given end, and every other byte as it was. */
module Writer {
  import opened Words
  import opened Types
  import opened Varints
  import opened Wire
  import opened Messages
  import opened NestedMessages

  /** From before to after, s was written so that it ends where i was; now it starts at j.
      What stood from i on follows it, what stood below j is untouched. */
  ghost predicate Wrote(before: Bytes, after: Bytes, i: nat, j: nat, s: Bytes) {
    && |after| == |before| && j <= i <= |before|
    && after[..j] == before[..j] && after[j..] == s + before[i..]
  }

  lemma WroteNothing(buf: Bytes, i: nat)
    requires i <= |buf|
    ensures Wrote(buf, buf, i, i, [])
  {
    assert [] + buf[i..] == buf[i..];
  }

  lemma WroteBelow(b0: Bytes, b1: Bytes, b2: Bytes, i: nat, j: nat, k: nat, s: Bytes, t: Bytes)
    requires Wrote(b0, b1, i, j, s) && Wrote(b1, b2, j, k, t)
    ensures Wrote(b0, b2, i, k, t + s)
  {
    assert b2[..k] == b1[..j][..k] == b0[..j][..k] == b0[..k];
    assert t + (s + b0[i..]) == t + s + b0[i..];
  }

  method EncodeVarint(buf: array<byte>, offset: nat, v: U64) returns (base: nat)
    requires Sov(v) <= offset <= buf.Length
    modifies buf
    ensures base == offset - Sov(v) && Wrote(old(buf[..]), buf[..], offset, base, Varint(v))
  {
    hide Sov, Varint, And, Or, Shr, Wrote;
    SovIsLength(v);
    base := offset - Sov(v);
    ghost var word, b0 := Varint(v), buf[..];
    var o: nat, x: U64 := base, v;
    VarintStarts(x);
    while x >= 128
      invariant base <= o < offset && word[o - base..] == Varint(x)
      invariant forall k :: base <= k < o ==> buf[k] == word[k - base]
      invariant forall k :: 0 <= k < buf.Length && !(base <= k < o) ==> buf[k] == b0[k]
    {
      VarintStarts(x);
      VarintStarts(x / 128);
      WriterBits(x);
      buf[o] := Or(And(x, 0x7f), 0x80);
      assert word[o + 1 - base..] == word[o - base..][1..];
      x := Shr(x, 7);
      o := o + 1;
    }
    VarintStarts(x);
    buf[o] := x;
    VarintWritten(b0, buf[..], offset, base, word);
  }

  lemma VarintWritten(b0: Bytes, b1: Bytes, offset: nat, base: nat, word: Bytes)
    requires |b1| == |b0| && base + |word| == offset <= |b0|
    requires forall k :: base <= k < offset ==> b1[k] == word[k - base]
    requires forall k :: 0 <= k < |b0| && !(base <= k < offset) ==> b1[k] == b0[k]
    ensures Wrote(b0, b1, offset, base, word)
  {
    assert b1[base..offset] == word;
    assert b1[base..] == b1[base..offset] + b1[offset..];
    assert b1[offset..] == b0[offset..];
  }

  lemma VarintStarts(v: nat)
    ensures |Varint(v)| > 0
    ensures Varint(v)[0] == if v < 128 then v else v % 128 + 128
    ensures if v < 128 then |Varint(v)| == 1 else Varint(v)[1..] == Varint(v / 128)
  {
  }

  // ---- One field ----

  method PutByte(buf: array<byte>, i: nat, b: byte) returns (j: nat)
    requires 0 < i <= buf.Length
    modifies buf
    ensures j == i - 1 && Wrote(old(buf[..]), buf[..], i, j, [b])
  {
    j := i - 1;
    buf[j] := b;
    assert buf[i..] == old(buf[i..]);
    assert buf[j..] == [buf[j]] + buf[i..];
  }

  method PutFlag(buf: array<byte>, i: nat, field: nat, b: bool) returns (j: nat)
    requires 0 < field < 16 && FlagSize(b) <= i <= buf.Length
    modifies buf
    ensures j == i - FlagSize(b) && Wrote(old(buf[..]), buf[..], i, j, EncodeAll(Flag(field, b)))
  {
    hide Wrote;
    ghost var b0 := buf[..];
    j := i;
    WroteNothing(b0, i);
    if b {
      j := PutByte(buf, j, 1);
      ghost var b1 := buf[..];
      j := PutByte(buf, j, 8 * field);
      WroteBelow(b0, b1, buf[..], i, i - 1, j, [1], [8 * field]);
      EncodeOne(Number(field, 1));
    }
  }

  method PutWord(buf: array<byte>, i: nat, field: nat, v: U64) returns (j: nat)
    requires 0 < field < 16 && WordSize(v) <= i <= buf.Length
    modifies buf
    ensures j == i - WordSize(v) && Wrote(old(buf[..]), buf[..], i, j, EncodeAll(Word(field, v)))
  {
    hide Wrote, Sov;
    ghost var b0 := buf[..];
    j := i;
    WroteNothing(b0, i);
    if v != 0 {
      j := EncodeVarint(buf, j, v);
      ghost var b1, k := buf[..], j;
      j := PutByte(buf, j, 8 * field);
      WroteBelow(b0, b1, buf[..], i, k, j, Varint(v), [8 * field]);
      EncodeOne(Number(field, v));
    }
  }

  /** The length and the tag of a body already written from i on. */
  method CloseBody(buf: array<byte>, i: nat, field: nat, size: nat) returns (j: nat)
    requires 0 < field < 16 && 1 + Sov(size) <= i <= buf.Length && size < TWO_63
    modifies buf
    ensures j == i - (1 + Sov(size)) && Wrote(old(buf[..]), buf[..], i, j, [8 * field + 2] + Varint(size))
  {
    hide Wrote, Sov;
    ghost var b0 := buf[..];
    j := EncodeVarint(buf, i, size);
    ghost var b1, k := buf[..], j;
    j := PutByte(buf, j, 8 * field + 2);
    WroteBelow(b0, b1, buf[..], i, k, j, Varint(size), [8 * field + 2]);
  }

  method CopyBytes(buf: array<byte>, i: nat, s: Bytes) returns (j: nat)
    requires |s| <= i <= buf.Length
    modifies buf
    ensures j == i - |s| && Wrote(old(buf[..]), buf[..], i, j, s)
  {
    j := i - |s|;
    forall k | 0 <= k < |s| { buf[j + k] := s[k]; }
    assert buf[i..] == old(buf[i..]);
    assert buf[j..i] == s;
    assert buf[j..] == buf[j..i] + buf[i..];
  }

  method PutBody(buf: array<byte>, i: nat, field: nat, s: Bytes) returns (j: nat)
    requires 0 < field < 16 && NestedSize(|s|) <= i <= buf.Length && |s| < TWO_63
    modifies buf
    ensures j == i - NestedSize(|s|) && Wrote(old(buf[..]), buf[..], i, j, EncodeAll([Chunk(field, s)]))
  {
    hide Wrote, Sov;
    ghost var b0 := buf[..];
    j := CopyBytes(buf, i, s);
    ghost var b1, k := buf[..], j;
    j := CloseBody(buf, j, field, |s|);
    WroteBelow(b0, b1, buf[..], i, k, j, s, [8 * field + 2] + Varint(|s|));
    ChunkBytes(field, s);
  }

  lemma ChunkBytes(field: nat, s: Bytes)
    requires 0 < field < 16
    ensures EncodeAll([Chunk(field, s)]) == [8 * field + 2] + Varint(|s|) + s
  {
    EncodeOne(Chunk(field, s));
  }

  method PutText(buf: array<byte>, i: nat, field: nat, s: Str) returns (j: nat)
    requires 0 < field < 16 && TextSize(s) <= i <= buf.Length && |s| < TWO_63
    modifies buf
    ensures j == i - TextSize(s) && Wrote(old(buf[..]), buf[..], i, j, EncodeAll(Text(field, s)))
  {
    hide Wrote, Sov;
    j := i;
    if s != [] {
      j := PutBody(buf, j, field, s);
    } else {
      WroteNothing(buf[..], i);
    }
  }

  /** A field written below fields: the encodings line up in reading order. */
  lemma PutBelow(b0: Bytes, b1: Bytes, b2: Bytes, i: nat, j: nat, k: nat, later: seq<Item>, item: seq<Item>)
    requires Writable(later) && Writable(item)
    requires Wrote(b0, b1, i, j, EncodeAll(later)) && Wrote(b1, b2, j, k, EncodeAll(item))
    ensures Writable(item + later) && Wrote(b0, b2, i, k, EncodeAll(item + later))
  {
    EncodeAppend(item, later);
    WroteBelow(b0, b1, b2, i, j, k, EncodeAll(later), EncodeAll(item));
  }

  // ---- One message ----

  method MarshalParamsTo(buf: array<byte>, end: nat, m: Params) returns (n: nat)
    requires SizeParams(m) <= end <= buf.Length
    modifies buf
    ensures n == SizeParams(m) && Wrote(old(buf[..]), buf[..], end, end - n, MarshalParams(m))
  {
    hide Wrote, WordSize, EncodeAll, Word;
    ghost var b0 := buf[..];
    var a, b, c := Word(1, m.minWindow), Word(2, m.defaultWindow), Word(3, m.maxWindow);
    var i := PutWord(buf, end, 3, m.maxWindow);
    ghost var b1, i1 := buf[..], i;
    i := PutWord(buf, i, 2, m.defaultWindow);
    ghost var b2, i2 := buf[..], i;
    PutBelow(b0, b1, b2, end, i1, i2, c, b);
    i := PutWord(buf, i, 1, m.minWindow);
    PutBelow(b0, b2, buf[..], end, i2, i, b + c, a);
    assert a + (b + c) == ParamsItems(m);
    n := end - i;
  }

  method MarshalRecordTo(buf: array<byte>, end: nat, m: Record) returns (n: nat)
    requires SizeRecord(m) <= end <= buf.Length && |m.index| < TWO_63
    modifies buf
    ensures n == SizeRecord(m) && Wrote(old(buf[..]), buf[..], end, end - n, MarshalRecord(m))
  {
    hide Wrote, WordSize, TextSize, FlagSize, EncodeAll, Word, Text, Flag;
    ghost var b0 := buf[..];
    var a, b, c, d := Text(1, m.index), Word(2, m.sent), Word(3, m.cancelled), Flag(4, m.finalOnly);
    var i := PutFlag(buf, end, 4, m.finalOnly);
    ghost var b1, i1 := buf[..], i;
    i := PutWord(buf, i, 3, m.cancelled);
    ghost var b2, i2 := buf[..], i;
    PutBelow(b0, b1, b2, end, i1, i2, d, c);
    i := PutWord(buf, i, 2, m.sent);
    ghost var b3, i3 := buf[..], i;
    PutBelow(b0, b2, b3, end, i2, i3, c + d, b);
    i := PutText(buf, i, 1, m.index);
    PutBelow(b0, b3, buf[..], end, i3, i, b + (c + d), a);
    assert a + (b + (c + d)) == RecordItems(m);
    n := end - i;
  }

  method MarshalPendingTo(coins: CoinCodec, buf: array<byte>, end: nat, m: Pending) returns (n: nat)
    requires SizePending(coins, m) <= end <= buf.Length
    requires |m.sender| < TWO_63 && |m.recipient| < TWO_63 && |coins.encode(m.amount)| < TWO_63
    modifies buf
    ensures n == SizePending(coins, m) && Wrote(old(buf[..]), buf[..], end, end - n, MarshalPending(coins, m))
  {
    hide Wrote, WordSize, TextSize, NestedSize, EncodeAll, Word, Text;
    ghost var b0 := buf[..];
    var body := coins.encode(m.amount);
    var a, b, c, d, e := Word(1, m.id), Text(2, m.sender), Text(3, m.recipient), [Chunk(4, body)], Word(5, ToU64(m.executeAt));
    var i := PutWord(buf, end, 5, ToU64(m.executeAt));
    ghost var b1, i1 := buf[..], i;
    i := PutBody(buf, i, 4, body);
    ghost var b2, i2 := buf[..], i;
    PutBelow(b0, b1, b2, end, i1, i2, e, d);
    i := PutText(buf, i, 3, m.recipient);
    ghost var b3, i3 := buf[..], i;
    PutBelow(b0, b2, b3, end, i2, i3, d + e, c);
    i := PutText(buf, i, 2, m.sender);
    ghost var b4, i4 := buf[..], i;
    PutBelow(b0, b3, b4, end, i3, i4, c + (d + e), b);
    i := PutWord(buf, i, 1, m.id);
    PutBelow(b0, b4, buf[..], end, i4, i, b + (c + (d + e)), a);
    assert a + (b + (c + (d + e))) == PendingItems(coins, m);
    n := end - i;
  }

  method MarshalCancelSendTo(buf: array<byte>, end: nat, m: MsgCancelSend) returns (n: nat)
    requires SizeCancelSend(m) <= end <= buf.Length && |m.creator| < TWO_63
    modifies buf
    ensures n == SizeCancelSend(m) && Wrote(old(buf[..]), buf[..], end, end - n, MarshalCancelSend(m))
  {
    hide Wrote, WordSize, TextSize, EncodeAll, Word, Text;
    ghost var b0 := buf[..];
    var i := PutWord(buf, end, 2, m.id);
    ghost var b1, i1 := buf[..], i;
    i := PutText(buf, i, 1, m.creator);
    PutBelow(b0, b1, buf[..], end, i1, i, Word(2, m.id), Text(1, m.creator));
    n := end - i;
  }

  method MarshalSetFinalOnlyTo(buf: array<byte>, end: nat, m: MsgSetFinalOnly) returns (n: nat)
    requires SizeSetFinalOnly(m) <= end <= buf.Length && |m.creator| < TWO_63
    modifies buf
    ensures n == SizeSetFinalOnly(m) && Wrote(old(buf[..]), buf[..], end, end - n, MarshalSetFinalOnly(m))
  {
    hide Wrote, FlagSize, TextSize, EncodeAll, Flag, Text;
    ghost var b0 := buf[..];
    var i := PutFlag(buf, end, 2, m.finalOnly);
    ghost var b1, i1 := buf[..], i;
    i := PutText(buf, i, 1, m.creator);
    PutBelow(b0, b1, buf[..], end, i1, i, Flag(2, m.finalOnly), Text(1, m.creator));
    n := end - i;
  }

  method MarshalDelayedSendTo(coins: CoinCodec, buf: array<byte>, end: nat, m: MsgDelayedSend) returns (n: nat)
    requires SizeDelayedSend(coins, m) <= end <= buf.Length
    requires |m.creator| < TWO_63 && |m.recipient| < TWO_63 && |coins.encode(m.amount)| < TWO_63
    modifies buf
    ensures n == SizeDelayedSend(coins, m) && Wrote(old(buf[..]), buf[..], end, end - n, MarshalDelayedSend(coins, m))
  {
    hide Wrote, WordSize, TextSize, NestedSize, EncodeAll, Word, Text;
    ghost var b0 := buf[..];
    var body := coins.encode(m.amount);
    var a, b, c, d := Text(1, m.creator), Text(2, m.recipient), [Chunk(3, body)], Word(4, m.window);
    var i := PutWord(buf, end, 4, m.window);
    ghost var b1, i1 := buf[..], i;
    i := PutBody(buf, i, 3, body);
    ghost var b2, i2 := buf[..], i;
    PutBelow(b0, b1, b2, end, i1, i2, d, c);
    i := PutText(buf, i, 2, m.recipient);
    ghost var b3, i3 := buf[..], i;
    PutBelow(b0, b2, b3, end, i2, i3, c + d, b);
    i := PutText(buf, i, 1, m.creator);
    PutBelow(b0, b3, buf[..], end, i3, i, b + (c + d), a);
    assert a + (b + (c + d)) == DelayedSendItems(coins, m);
    n := end - i;
  }

  // ---- A message in a message ----

  /** A body written in place, then its length and tag. */
  lemma NestedBelow(b0: Bytes, b1: Bytes, b2: Bytes, i: nat, j: nat, k: nat, field: nat, body: Bytes)
    requires 0 < field < 16
    requires Wrote(b0, b1, i, j, body) && Wrote(b1, b2, j, k, [8 * field + 2] + Varint(|body|))
    ensures Wrote(b0, b2, i, k, EncodeAll([Chunk(field, body)]))
  {
    ChunkBytes(field, body);
    WroteBelow(b0, b1, b2, i, j, k, body, [8 * field + 2] + Varint(|body|));
  }

  method PutParams(buf: array<byte>, i: nat, field: nat, p: Params) returns (j: nat)
    requires 0 < field < 16 && NestedSize(SizeParams(p)) <= i <= buf.Length
    modifies buf
    ensures j == i - NestedSize(SizeParams(p))
    ensures Wrote(old(buf[..]), buf[..], i, j, EncodeAll([Chunk(field, MarshalParams(p))]))
  {
    hide Wrote, SizeParams, MarshalParams, Sov;
    ghost var b0 := buf[..];
    ParamsSize(p);
    var size := MarshalParamsTo(buf, i, p);
    j := i - size;
    ghost var b1, k := buf[..], j;
    j := CloseBody(buf, j, field, size);
    NestedBelow(b0, b1, buf[..], i, k, j, field, MarshalParams(p));
  }

  method MarshalUpdateParamsTo(buf: array<byte>, end: nat, m: MsgUpdateParams) returns (n: nat)
    requires SizeUpdateParams(m) <= end <= buf.Length && |m.authority| < TWO_63
    modifies buf
    ensures n == SizeUpdateParams(m) && Wrote(old(buf[..]), buf[..], end, end - n, MarshalUpdateParams(m))
  {
    hide Wrote, NestedSize, SizeParams, TextSize, EncodeAll, Text, MarshalParams;
    ghost var b0 := buf[..];
    var i := PutParams(buf, end, 2, m.params);
    ghost var b1, i1 := buf[..], i;
    i := PutText(buf, i, 1, m.authority);
    PutBelow(b0, b1, buf[..], end, i1, i, [Chunk(2, MarshalParams(m.params))], Text(1, m.authority));
    n := end - i;
  }

  // ---- Lists of messages, last element first ----

  method PutPendingList(coins: CoinCodec, buf: array<byte>, i: nat, list: seq<Pending>) returns (j: nat)
    requires SizePendingList(coins, list) <= i <= buf.Length < TWO_63
    requires CoinsFit(coins, list)
    modifies buf
    ensures j == i - SizePendingList(coins, list)
    ensures Wrote(old(buf[..]), buf[..], i, j, EncodeAll(Repeated(2, PendingBodies(coins, list))))
  {
    hide Wrote, SizePending, MarshalPending, Sov, EncodeAll, Repeated;
    ghost var b0 := buf[..];
    j := i;
    var k := |list|;
    PendingTailNone(coins, list);
    WroteNothing(b0, i);
    while k > 0
      invariant 0 <= k <= |list|
      invariant j == i - SizePendingList(coins, list[k..])
      invariant Wrote(b0, buf[..], i, j, EncodeAll(Repeated(2, PendingBodies(coins, list[k..]))))
    {
      k := k - 1;
      var p := list[k];
      PendingTailNext(coins, list, k);
      ghost var b1, j1 := buf[..], j;
      ghost var later := Repeated(2, PendingBodies(coins, list[k + 1..]));
      var size := MarshalPendingTo(coins, buf, j, p);
      PendingSize(coins, p);
      j := j - size;
      ghost var b2, j2 := buf[..], j;
      j := CloseBody(buf, j, 2, size);
      NestedBelow(b1, b2, buf[..], j1, j2, j, 2, MarshalPending(coins, p));
      PutBelow(b0, b1, buf[..], i, j1, j, later, [Chunk(2, MarshalPending(coins, p))]);
    }
    assert list[0..] == list;
  }

  /** Coins, too, must fit in a Go slice. */
  ghost predicate CoinsFit(coins: CoinCodec, list: seq<Pending>) {
    forall p :: p in list ==> |coins.encode(p.amount)| < TWO_63
  }

  lemma PendingTailNone(coins: CoinCodec, list: seq<Pending>)
    ensures SizePendingList(coins, list[|list|..]) == 0
    ensures EncodeAll(Repeated(2, PendingBodies(coins, list[|list|..]))) == []
  {
    RepeatedNone(2);
  }

  lemma PendingTailNext(coins: CoinCodec, list: seq<Pending>, k: nat)
    requires k < |list|
    ensures SizePendingList(coins, list[k..]) == NestedSize(SizePending(coins, list[k])) + SizePendingList(coins, list[k + 1..])
    ensures Repeated(2, PendingBodies(coins, list[k..])) ==
            [Chunk(2, MarshalPending(coins, list[k]))] + Repeated(2, PendingBodies(coins, list[k + 1..]))
    ensures SizePendingList(coins, list[k..]) <= SizePendingList(coins, list)
    ensures |list[k].sender| + |list[k].recipient| <= SizePending(coins, list[k])
  {
    assert list[k..][1..] == list[k + 1..];
    RepeatedFirst(2, MarshalPending(coins, list[k]), PendingBodies(coins, list[k + 1..]));
    PendingTailSize(coins, list, k);
  }

  lemma {:induction false} PendingTailSize(coins: CoinCodec, list: seq<Pending>, k: nat)
    requires k <= |list|
    ensures SizePendingList(coins, list[k..]) <= SizePendingList(coins, list)
  {
    if k > 0 {
      PendingTailSize(coins, list[1..], k - 1);
      assert list[1..][k - 1..] == list[k..];
    } else {
      assert list[0..] == list;
    }
  }

  method PutRecordMap(buf: array<byte>, i: nat, list: seq<Record>) returns (j: nat)
    requires SizeRecordMap(list) <= i <= buf.Length < TWO_63
    modifies buf
    ensures j == i - SizeRecordMap(list)
    ensures Wrote(old(buf[..]), buf[..], i, j, EncodeAll(Repeated(4, RecordBodies(list))))
  {
    hide Wrote, SizeRecord, MarshalRecord, Sov, EncodeAll, Repeated;
    ghost var b0 := buf[..];
    j := i;
    var k := |list|;
    RecordTailNone(list);
    WroteNothing(b0, i);
    while k > 0
      invariant 0 <= k <= |list|
      invariant j == i - SizeRecordMap(list[k..])
      invariant Wrote(b0, buf[..], i, j, EncodeAll(Repeated(4, RecordBodies(list[k..]))))
    {
      k := k - 1;
      var r := list[k];
      RecordTailNext(list, k);
      ghost var b1, j1 := buf[..], j;
      ghost var later := Repeated(4, RecordBodies(list[k + 1..]));
      var size := MarshalRecordTo(buf, j, r);
      RecordSize(r);
      j := j - size;
      ghost var b2, j2 := buf[..], j;
      j := CloseBody(buf, j, 4, size);
      NestedBelow(b1, b2, buf[..], j1, j2, j, 4, MarshalRecord(r));
      PutBelow(b0, b1, buf[..], i, j1, j, later, [Chunk(4, MarshalRecord(r))]);
    }
    assert list[0..] == list;
  }

  lemma RecordTailNone(list: seq<Record>)
    ensures SizeRecordMap(list[|list|..]) == 0
    ensures EncodeAll(Repeated(4, RecordBodies(list[|list|..]))) == []
  {
    RepeatedNone(4);
  }

  lemma RecordTailNext(list: seq<Record>, k: nat)
    requires k < |list|
    ensures SizeRecordMap(list[k..]) == NestedSize(SizeRecord(list[k])) + SizeRecordMap(list[k + 1..])
    ensures Repeated(4, RecordBodies(list[k..])) == [Chunk(4, MarshalRecord(list[k]))] + Repeated(4, RecordBodies(list[k + 1..]))
    ensures SizeRecordMap(list[k..]) <= SizeRecordMap(list)
    ensures |list[k].index| <= SizeRecord(list[k])
  {
    assert list[k..][1..] == list[k + 1..];
    RepeatedFirst(4, MarshalRecord(list[k]), RecordBodies(list[k + 1..]));
    RecordTailSize(list, k);
  }

  lemma {:induction false} RecordTailSize(list: seq<Record>, k: nat)
    requires k <= |list|
    ensures SizeRecordMap(list[k..]) <= SizeRecordMap(list)
  {
    if k > 0 {
      RecordTailSize(list[1..], k - 1);
      assert list[1..][k - 1..] == list[k..];
    } else {
      assert list[0..] == list;
    }
  }

  method MarshalGenesisTo(coins: CoinCodec, buf: array<byte>, end: nat, m: GenesisState) returns (n: nat)
    requires SizeGenesis(coins, m) <= end <= buf.Length < TWO_63 && CoinsFit(coins, m.pendingList)
    modifies buf
    ensures n == SizeGenesis(coins, m) && Wrote(old(buf[..]), buf[..], end, end - n, MarshalGenesis(coins, m))
  {
    hide Wrote, NestedSize, WordSize, SizeParams, SizePendingList, SizeRecordMap, EncodeAll, Word, Repeated, MarshalParams, PendingBodies, RecordBodies, CoinsFit;
    ghost var b0 := buf[..];
    ghost var a, b, c, d := [Chunk(1, MarshalParams(m.params))], Repeated(2, PendingBodies(coins, m.pendingList)),
      Word(3, m.pendingCount), Repeated(4, RecordBodies(m.recordMap));
    var i := PutRecordMap(buf, end, m.recordMap);
    ghost var b1, i1 := buf[..], i;
    i := PutWord(buf, i, 3, m.pendingCount);
    ghost var b2, i2 := buf[..], i;
    PutBelow(b0, b1, b2, end, i1, i2, d, c);
    i := PutPendingList(coins, buf, i, m.pendingList);
    ghost var b3, i3 := buf[..], i;
    PutBelow(b0, b2, b3, end, i2, i3, c + d, b);
    i := PutParams(buf, i, 1, m.params);
    PutBelow(b0, b3, buf[..], end, i3, i, b + (c + d), a);
    assert a + (b + (c + d)) == GenesisItems(coins, m);
    n := end - i;
  }

  // ---- The whole message ----

  /** Marshal: a buffer of exactly the predicted size, filled from its end, returned up to the number of
      bytes written; that is the whole encoding. */
  method MarshalRecordBytes(m: Record) returns (r: Bytes)
    requires SizeRecord(m) < TWO_63
    ensures r == MarshalRecord(m)
  {
    hide *;
    RecordSize(m);
    IndexFits(m);
    var size := SizeRecord(m);
    var buf := new byte[size];
    ghost var before := buf[..];
    var n := MarshalRecordTo(buf, size, m);
    WholeBuffer(before, buf[..], n, MarshalRecord(m));
    r := buf[..n];
  }

  lemma WholeBuffer(before: Bytes, after: Bytes, n: nat, s: Bytes)
    requires n == |before| && Wrote(before, after, n, 0, s)
    ensures |after| == n && after[..n] == s
  {
    assert after[0..] == s + before[n..];
  }

  lemma IndexFits(m: Record)
    ensures |m.index| <= SizeRecord(m)
  {
  }

  method MarshalGenesisBytes(coins: CoinCodec, m: GenesisState) returns (r: Bytes)
    requires SizeGenesis(coins, m) < TWO_63 && CoinsFit(coins, m.pendingList)
    ensures r == MarshalGenesis(coins, m)
  {
    hide *;
    GenesisSize(coins, m);
    var size := SizeGenesis(coins, m);
    var buf := new byte[size];
    ghost var before := buf[..];
    var n := MarshalGenesisTo(coins, buf, size, m);
    WholeBuffer(before, buf[..], n, MarshalGenesis(coins, m));
    r := buf[..n];
  }
}
