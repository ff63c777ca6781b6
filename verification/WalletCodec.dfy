/** The wallet's hand-written encoders. They write forwards, from tables of fields; what they write is byte
    for byte what the chain's marshallers write backwards. */
module WalletCodec {
  import opened Words
  import opened Types
  import opened Varints
  import opened Wire
  import opened Messages
  import opened NestedMessages

  // ---- Numbers in the wallet's language ----

  /** The distance between neighbouring doubles around v: 1 below 2^53, then doubling with every bit. */
  function Unit(v: nat): (u: nat)
    ensures u > 0
  {
    if v < 0x20_0000_0000_0000 then 1 else 2 * Unit(v / 2)
  }

  /** Whether v can be held without loss. */
  predicate IsExact(v: nat) {
    v % Unit(v) == 0
  }

  /** Number(v): the nearest double, ties to the even one. */
  function ToNumber(v: nat): nat {
    var q, r := v / Unit(v), v % Unit(v);
    if 2 * r < Unit(v) || (2 * r == Unit(v) && q % 2 == 0) then q * Unit(v) else (q + 1) * Unit(v)
  }

  lemma ToNumberExact(v: nat)
    ensures ToNumber(v) == v <==> IsExact(v)
    ensures v < 0x20_0000_0000_0000 ==> IsExact(v)
  {
    var u := Unit(v);
    var q, r := v / u, v % u;
    assert v == q * u + r;
    assert (q + 1) * u == q * u + u;
  }

  // ---- The nearest double ----

  lemma DivDiv(v: nat, u: nat)
    requires u > 0
    ensures v / 2 / u == v / (2 * u)
  {
    var q, r := v / 2 / u, v / 2 % u;
    ModParts(v / 2, u);
    TwiceProduct(q, u);
    DivUnique(v, 2 * u, q, 2 * r + v % 2);
  }

  lemma DivUnique(x: nat, n: nat, q: nat, r: nat)
    requires r < n && x == q * n + r
    ensures x / n == q
  {
    var a := x / n;
    ModParts(x, n);
    if a > q { AtLeastOnce(q, a, n); }
    if a < q { AtLeastOnce(a, q, n); }
  }

  /** From 2^53 on the quotient fills the 53 bits of a double. */
  lemma {:induction false} QuotientLarge(v: nat)
    requires v >= 0x20_0000_0000_0000
    ensures v / Unit(v) >= 0x10_0000_0000_0000
  {
    DivDiv(v, Unit(v / 2));
    if v / 2 >= 0x20_0000_0000_0000 { QuotientLarge(v / 2); }
  }

  /** Within one step of the doubles around v the spacing is that of v. */
  lemma {:induction false} UnitSame(v: nat, w: nat)
    requires w / Unit(v) == v / Unit(v)
    ensures Unit(w) == Unit(v)
    decreases v
  {
    if v >= 0x20_0000_0000_0000 {
      QuotientLarge(v);
      AtLeastQuotient(w, Unit(v), 0x10_0000_0000_0000);
      DivDiv(v, Unit(v / 2));
      DivDiv(w, Unit(v / 2));
      UnitSame(v / 2, w / 2);
    }
  }

  lemma AtLeastQuotient(w: nat, u: nat, k: nat)
    requires u >= 2 && w / u >= k
    ensures w >= 2 * k
  {
    ModParts(w, u);
    var q := w / u;
    assert q * u >= q * 2;
  }

  lemma DoubleExact(x: nat)
    requires IsExact(x)
    ensures IsExact(2 * x)
  {
    ModDouble(2 * x, Unit(x));
    assert 2 * x / 2 == x;
  }

  lemma UnitStep(v: nat)
    ensures Unit(v) == if v < 0x20_0000_0000_0000 then 1 else 2 * Unit(v / 2)
  {
  }

  lemma SmallExact(x: nat)
    requires x <= 0x20_0000_0000_0000
    ensures IsExact(x)
  {
    if x == 0x20_0000_0000_0000 {
      UnitStep(x);
      UnitStep(x / 2);
    }
  }

  predicate Scaled(v: nat, m: nat, k: nat) {
    m < 0x20_0000_0000_0000 && v == m * Pow2(k)
  }

  /** The doubles among the natural numbers: a number of 53 bits times a power of two. */
  lemma {:induction false} ExactIsDouble(v: nat)
    ensures IsExact(v) <==> exists m: nat, k: nat :: Scaled(v, m, k)
  {
    if IsExact(v) {
      var m, k := SignificandOf(v);
      assert Scaled(v, m, k);
    }
    if m: nat, k: nat :| Scaled(v, m, k) { PowerExact(m, k); }
  }

  lemma {:induction false} SignificandOf(v: nat) returns (m: nat, k: nat)
    requires IsExact(v)
    ensures m < 0x20_0000_0000_0000 && v == m * Pow2(k)
  {
    if v < 0x20_0000_0000_0000 {
      m, k := v, 0;
      Pow2Next(0);
    } else {
      HalfExact(v);
      var n, j := SignificandOf(v / 2);
      m, k := n, j + 1;
      Pow2Next(j);
      hide Pow2, IsExact;
      TwiceProduct(n, Pow2(j));
    }
  }

  lemma HalfExact(v: nat)
    requires IsExact(v) && v >= 0x20_0000_0000_0000
    ensures IsExact(v / 2) && v == 2 * (v / 2)
  {
    ModDouble(v, Unit(v / 2));
  }

  lemma {:induction false} PowerExact(m: nat, k: nat)
    requires m < 0x20_0000_0000_0000
    ensures IsExact(m * Pow2(k))
    decreases k
  {
    hide IsExact, Pow2;
    if k == 0 {
      Pow2Next(0);
      SmallExact(m);
    } else {
      Pow2Next(k - 1);
      PowerExact(m, k - 1);
      DoubleExact(m * Pow2(k - 1));
      TwiceProduct(m, Pow2(k - 1));
    }
  }

  lemma NextMultiple(q: nat, u: nat)
    ensures (q + 1) * u == q * u + u
  {
  }

  lemma RemainderFits(v: nat, u: nat)
    requires u > 0
    ensures v % u <= v
  {
    ModParts(v, u);
    NotNegative(v / u, u);
  }

  lemma NotNegative(a: nat, b: nat)
    ensures a * b >= 0
  {
  }

  /** The multiple of the spacing just below v. */
  function Below(v: nat): nat {
    RemainderFits(v, Unit(v));
    v - v % Unit(v)
  }

  lemma BelowStep(v: nat)
    ensures v < 0x20_0000_0000_0000 ==> Below(v) == v
    ensures v >= 0x20_0000_0000_0000 ==> Below(v) == 2 * Below(v / 2)
  {
    hide Unit;
    UnitStep(v);
    if v >= 0x20_0000_0000_0000 { ModDouble(v, Unit(v / 2)); }
  }

  /** It and the next multiple are doubles. */
  lemma {:induction false} Neighbours(v: nat)
    ensures IsExact(Below(v)) && IsExact(Below(v) + Unit(v))
  {
    hide Unit, IsExact, Below;
    UnitStep(v);
    BelowStep(v);
    if v < 0x20_0000_0000_0000 {
      SmallExact(v);
      SmallExact(v + 1);
    } else {
      Neighbours(v / 2);
      DoubleExact(Below(v / 2));
      DoubleExact(Below(v / 2) + Unit(v / 2));
    }
  }

  lemma NoneBetween(v: nat, w: nat)
    requires IsExact(w)
    ensures w <= Below(v) || w >= Below(v) + Unit(v)
  {
    hide Unit;
    var u := Unit(v);
    ModParts(v, u);
    if Below(v) < w < Below(v) + u {
      DivUnique(w, u, v / u, w - Below(v));
      ModUnique(w, u, v / u, w - Below(v));
      UnitSame(v, w);
    }
  }

  lemma ToNumberIs(v: nat)
    ensures ToNumber(v) ==
      if 2 * (v % Unit(v)) < Unit(v) || (2 * (v % Unit(v)) == Unit(v) && v / Unit(v) % 2 == 0) then Below(v)
      else Below(v) + Unit(v)
  {
    hide Unit;
    ModParts(v, Unit(v));
    NextMultiple(v / Unit(v), Unit(v));
  }

  lemma Quotients(v: nat, u: nat, low: nat)
    requires u > 0 && low + v % u == v
    ensures low / u == v / u && (low + u) / u == v / u + 1
  {
    ModParts(v, u);
    NextMultiple(v / u, u);
    DivUnique(low, u, v / u, 0);
    DivUnique(low + u, u, v / u + 1, 0);
  }

  /** The conversion gives a double, no double is nearer, and of two equally near the one with the even
      quotient is taken. */
  lemma ToNumberNearest(v: nat, w: nat)
    requires IsExact(w)
    ensures IsExact(ToNumber(v))
    ensures Distance(ToNumber(v), v) <= Distance(w, v)
    ensures 2 * Distance(ToNumber(v), v) == Unit(v) ==> ToNumber(v) / Unit(v) % 2 == 0
  {
    hide Unit, IsExact, ToNumber;
    ToNumberIs(v);
    Neighbours(v);
    NoneBetween(v, w);
    BelowIs(v);
    hide Below;
    Quotients(v, Unit(v), Below(v));
    Remainder(v, Unit(v));
    Rounds(v, v / Unit(v), Unit(v), v % Unit(v), w, Below(v));
  }

  lemma BelowIs(v: nat)
    ensures Below(v) + v % Unit(v) == v
  {
  }

  lemma Remainder(v: nat, u: nat)
    requires u > 0
    ensures 0 <= v % u < u
  {
  }

  lemma Rounds(v: nat, q: nat, u: nat, r: nat, w: nat, low: nat)
    requires v == low + r && r < u && (w <= low || w >= low + u)
    ensures var t := if 2 * r < u || (2 * r == u && q % 2 == 0) then low else low + u;
      && Distance(t, v) <= Distance(w, v)
      && (2 * Distance(t, v) == u ==> if t == low then q % 2 == 0 else (q + 1) % 2 == 0)
  {
  }

  function Distance(a: nat, b: nat): nat {
    if a < b then b - a else a - b
  }

  lemma {:induction false} UnitSmall(v: nat, k: nat)
    requires v < 0x20_0000_0000_0000 * Pow2(k)
    ensures Unit(v) <= Pow2(k)
    decreases k
  {
    if v >= 0x20_0000_0000_0000 && k > 0 { UnitSmall(v / 2, k - 1); }
  }

  /** Rounding a 64-bit word moves it by less than 2^11: short of 2^64, or onto it. */
  lemma ToNumberNear(v: U64)
    ensures v - 2048 < ToNumber(v) < v + 2048
  {
    assert Pow2(11) == 2048 by { assert Pow2(5) == 32; assert Pow2(8) == 8 * Pow2(5); }
    UnitSmall(v, 11);
    var u := Unit(v);
    var q, r := v / u, v % u;
    assert v == q * u + r;
    assert (q + 1) * u == q * u + u;
  }

  datatype JsKind = JsString | JsStrings | JsUint64 | JsBool

  /** A row of a field table: the property, the field number, the kind. */
  datatype Row = Row(name: string, field: nat, kind: JsKind)

  /** The value of a property; texts are in their UTF-8 bytes. */
  datatype JsValue = Undefined | Chars(s: Bytes) | List(texts: seq<Bytes>) | Num(n: nat) | Bool(b: bool)

  type JsObject = map<string, JsValue>

  function Property(m: JsObject, name: string): JsValue {
    if name in m then m[name] else Undefined
  }

  /** A property that is there has the kind its row says. */
  predicate Suits(v: JsValue, kind: JsKind) {
    match v
    case Undefined => true
    case Chars(s) => kind == JsString && |s| < 0x1_0000_0000
    case List(texts) => kind == JsStrings && forall s :: s in texts ==> |s| < 0x1_0000_0000
    case Num(n) => kind == JsUint64 && n < TWO_64
    case Bool(_) => kind == JsBool
  }

  predicate TableOk(rows: seq<Row>) {
    forall r :: r in rows ==> 0 < r.field < 0x1000_0000
  }

  predicate ObjectOk(m: JsObject, rows: seq<Row>) {
    forall r :: r in rows ==> Suits(Property(m, r.name), r.kind)
  }

  /** The items a row puts on the wire: none for a value that is missing, empty, zero or false. */
  function RowItems(v: JsValue, r: Row): (items: seq<Item>)
    ensures Writable(items)
  {
    match v
    case Undefined => []
    case Chars(s) => Text(r.field, s)
    case List(texts) => Repeated(r.field, texts)
    case Num(n) => if n == 0 then [] else [Item.Number(r.field, WrapU64(ToNumber(n)))]
    case Bool(b) => Flag(r.field, b)
  }

  function TableItems(m: JsObject, rows: seq<Row>): (items: seq<Item>)
    ensures Writable(items)
  {
    if rows == [] then [] else RowItems(Property(m, rows[0].name), rows[0]) + TableItems(m, rows[1..])
  }

  lemma {:induction false} TableItemsAppend(m: JsObject, rows: seq<Row>, r: Row)
    ensures TableItems(m, rows + [r]) == TableItems(m, rows) + RowItems(Property(m, r.name), r)
  {
    if rows == [] {
      assert rows + [r] == [r] && [r][1..] == [];
    } else {
      assert (rows + [r])[1..] == rows[1..] + [r];
      TableItemsAppend(m, rows[1..], r);
    }
  }

  /** The writer the encoders append to. */
  class ForwardWriter {
    var out: Bytes

    constructor ()
      ensures out == []
    {
      out := [];
    }

    method Uint32(v: nat)
      requires v < 0x1_0000_0000
      modifies this
      ensures out == old(out) + Varint(v)
    {
      out := out + Varint(v);
    }

    method Uint64(v: U64)
      modifies this
      ensures out == old(out) + Varint(v)
    {
      out := out + Varint(v);
    }

    method Text(s: Bytes)
      requires |s| < 0x1_0000_0000
      modifies this
      ensures out == old(out) + Varint(|s|) + s
    {
      Uint32(|s|);
      out := out + s;
    }

    method Flag(b: bool)
      modifies this
      ensures out == old(out) + [if b then 1 else 0]
    {
      out := out + [if b then 1 else 0];
    }
  }

  /** w.uint32((no << 3) | 2).string(s) */
  method PutText(w: ForwardWriter, field: nat, s: Bytes)
    requires 0 < field < 0x1000_0000 && |s| < 0x1_0000_0000
    modifies w
    ensures w.out == old(w.out) + EncodeAll([Chunk(field, s)])
  {
    EncodeOne(Chunk(field, s));
    hide Varint;
    w.Uint32(8 * field + 2);
    w.Text(s);
    assert Encode(Chunk(field, s)) == Varint(8 * field + 2) + Varint(|s|) + s;
  }

  /** w.uint32((no << 3) | 0).uint64(n) */
  method PutNumber(w: ForwardWriter, field: nat, n: U64)
    requires 0 < field < 0x1000_0000
    modifies w
    ensures w.out == old(w.out) + EncodeAll([Item.Number(field, n)])
  {
    EncodeOne(Item.Number(field, n));
    hide Varint;
    w.Uint32(8 * field);
    w.Uint64(n);
    assert Encode(Item.Number(field, n)) == Varint(8 * field) + Varint(n);
  }

  /** w.uint32((no << 3) | 0).bool(true) */
  method PutTrue(w: ForwardWriter, field: nat)
    requires 0 < field < 0x1000_0000
    modifies w
    ensures w.out == old(w.out) + EncodeAll([Item.Number(field, 1)])
  {
    EncodeOne(Item.Number(field, 1));
    w.Uint32(8 * field);
    w.Flag(true);
    assert Encode(Item.Number(field, 1)) == Varint(8 * field) + [1];
  }

  /** One row of the loop of stringsMsg. */
  method EncodeRow(w: ForwardWriter, v: JsValue, r: Row)
    requires 0 < r.field < 0x1000_0000 && Suits(v, r.kind)
    modifies w
    ensures w.out == old(w.out) + EncodeAll(RowItems(v, r))
  {
    hide Encode;
    match v
    case Undefined =>
    case Chars(s) => if s != [] { PutText(w, r.field, s); }
    case List(texts) => EncodeList(w, texts, r.field);
    case Num(n) => if n != 0 { PutNumber(w, r.field, WrapU64(ToNumber(n))); }
    case Bool(b) => if b { PutTrue(w, r.field); }
  }

  method EncodeList(w: ForwardWriter, texts: seq<Bytes>, field: nat)
    requires 0 < field < 0x1000_0000 && forall s :: s in texts ==> |s| < 0x1_0000_0000
    modifies w
    ensures w.out == old(w.out) + EncodeAll(Repeated(field, texts))
  {
    hide EncodeAll, Repeated;
    RepeatedEmpty(field);
    for i := 0 to |texts|
      invariant w.out == old(w.out) + EncodeAll(Repeated(field, texts[..i]))
    {
      RepeatedLast(field, texts, i);
      PutText(w, field, texts[i]);
    }
    assert texts[..|texts|] == texts;
  }

  lemma RepeatedEmpty(field: nat)
    ensures EncodeAll(Repeated(field, [])) == []
  {
    RepeatedNone(field);
  }

  lemma {:induction false} RepeatedAppend(field: nat, bodies: seq<Bytes>, b: Bytes)
    ensures Repeated(field, bodies + [b]) == Repeated(field, bodies) + [Chunk(field, b)]
  {
    if bodies == [] {
      assert bodies + [b] == [b] && [b][1..] == [];
    } else {
      assert (bodies + [b])[1..] == bodies[1..] + [b];
      RepeatedAppend(field, bodies[1..], b);
    }
  }

  lemma RepeatedLast(field: nat, texts: seq<Bytes>, i: nat)
    requires i < |texts|
    ensures EncodeAll(Repeated(field, texts[..i + 1])) ==
            EncodeAll(Repeated(field, texts[..i])) + EncodeAll([Chunk(field, texts[i])])
  {
    hide EncodeAll, Repeated;
    assert texts[..i + 1] == texts[..i] + [texts[i]];
    RepeatedAppend(field, texts[..i], texts[i]);
    EncodeAppend(Repeated(field, texts[..i]), [Chunk(field, texts[i])]);
  }

  /** stringsMsg(...).encode: the rows of the table in order. */
  method EncodeTable(m: JsObject, rows: seq<Row>) returns (bytes: Bytes)
    requires TableOk(rows) && ObjectOk(m, rows)
    ensures bytes == EncodeAll(TableItems(m, rows))
  {
    hide EncodeAll, TableItems, RowItems, TableOk, ObjectOk, Suits, Property;
    var w := new ForwardWriter();
    NoTableItems(m);
    for i := 0 to |rows|
      invariant fresh(w)
      invariant w.out == EncodeAll(TableItems(m, rows[..i]))
    {
      NextRow(m, rows, i);
      EncodeRow(w, Property(m, rows[i].name), rows[i]);
    }
    assert rows[..|rows|] == rows;
    bytes := w.out;
  }

  lemma NoTableItems(m: JsObject)
    ensures EncodeAll(TableItems(m, [])) == []
  {
  }

  lemma NextRow(m: JsObject, rows: seq<Row>, i: nat)
    requires i < |rows| && TableOk(rows) && ObjectOk(m, rows)
    ensures 0 < rows[i].field < 0x1000_0000 && Suits(Property(m, rows[i].name), rows[i].kind)
    ensures EncodeAll(TableItems(m, rows[..i + 1])) ==
            EncodeAll(TableItems(m, rows[..i])) + EncodeAll(RowItems(Property(m, rows[i].name), rows[i]))
  {
    hide EncodeAll, TableItems, RowItems, Suits, Property;
    assert rows[i] in rows;
    assert rows[..i + 1] == rows[..i] + [rows[i]];
    TableItemsAppend(m, rows[..i], rows[i]);
    EncodeAppend(TableItems(m, rows[..i]), RowItems(Property(m, rows[i].name), rows[i]));
  }

  const CANCEL_SEND: seq<Row> := [Row("creator", 1, JsString), Row("id", 2, JsUint64)]
  const SET_FINAL_ONLY: seq<Row> := [Row("creator", 1, JsString), Row("finalonly", 2, JsBool)]

  lemma {:induction false} TwoRows(m: JsObject, a: Row, b: Row)
    ensures TableItems(m, [a, b]) == RowItems(Property(m, a.name), a) + RowItems(Property(m, b.name), b)
  {
    TableItemsAppend(m, [a], b);
    TableItemsAppend(m, [], a);
    assert [] + [a] == [a] && [a] + [b] == [a, b];
  }

  /** Wallet and chain write the same bytes for a cancel exactly if the id survives the wallet's numbers;
      below 2^53 every id does. */
  lemma CancelSendAgrees(creator: Bytes, id: U64)
    requires |creator| < 0x1_0000_0000
    ensures var m: JsObject := map["creator" := Chars(creator), "id" := Num(id)];
      && TableOk(CANCEL_SEND) && ObjectOk(m, CANCEL_SEND)
      && (EncodeAll(TableItems(m, CANCEL_SEND)) == MarshalCancelSend(MsgCancelSend(creator, id)) <==> IsExact(id))
    ensures id < 0x20_0000_0000_0000 ==> IsExact(id)
  {
    hide EncodeAll, TableItems, TableOk, ObjectOk, ToNumber, IsExact, Messages.Text;
    var m: JsObject := map["creator" := Chars(creator), "id" := Num(id)];
    CancelSendRows(creator, id);
    ToNumberExact(id);
    var items := Messages.Text(1, creator) + if id == 0 then [] else [Item.Number(2, WrapU64(ToNumber(id)))];
    if IsExact(id) {
      assert items == CancelSendItems(MsgCancelSend(creator, id));
    } else {
      CancelDiffers(creator, id);
    }
  }

  lemma CancelSendRows(creator: Bytes, id: U64)
    requires |creator| < 0x1_0000_0000
    ensures var m: JsObject := map["creator" := Chars(creator), "id" := Num(id)];
      && TableOk(CANCEL_SEND) && ObjectOk(m, CANCEL_SEND)
      && TableItems(m, CANCEL_SEND) ==
         Messages.Text(1, creator) + if id == 0 then [] else [Item.Number(2, WrapU64(ToNumber(id)))]
  {
    hide TableItems, ToNumber, WrapU64;
    var m: JsObject := map["creator" := Chars(creator), "id" := Num(id)];
    TwoRows(m, CANCEL_SEND[0], CANCEL_SEND[1]);
    assert "creator" != "id";
  }

  /** An id that does not survive is another id on the wire. */
  lemma CancelDiffers(creator: Bytes, id: U64)
    requires |creator| < 0x1_0000_0000 && !IsExact(id)
    ensures EncodeAll(Messages.Text(1, creator) + [Item.Number(2, WrapU64(ToNumber(id)))]) != MarshalCancelSend(MsgCancelSend(creator, id))
  {
    hide ToNumber, IsExact, EncodeAll, Messages.Text, Unit, UnmarshalCancelSend;
    ToNumberExact(id);
    ToNumberNear(id);
    WalletCancelReads(creator, WrapU64(ToNumber(id)));
    CancelSendReads(creator, id);
  }

  lemma CancelSendReads(creator: Bytes, id: U64)
    requires |creator| < 0x1_0000_0000
    ensures UnmarshalCancelSend(MarshalCancelSend(MsgCancelSend(creator, id)), MsgCancelSend([], 0)) == Good(MsgCancelSend(creator, id))
  {
    CancelSendSize(MsgCancelSend(creator, id));
    SmallText(creator);
    WordFits(id);
    CancelSendRoundTrip(MsgCancelSend(creator, id));
  }

  /** What the chain reads from a cancel with an explicit id, even if that is zero. */
  lemma WalletCancelReads(creator: Bytes, id: U64)
    requires |creator| < 0x1_0000_0000
    ensures UnmarshalCancelSend(EncodeAll(Messages.Text(1, creator) + [Item.Number(2, id)]), MsgCancelSend([], 0)) ==
      Good(MsgCancelSend(creator, id))
  {
    var a, b := Messages.Text(1, creator), [Item.Number(2, id)];
    var m := MsgCancelSend([], 0);
    ApplyOne(m, Chunk(1, creator), ApplyCancelSend);
    ApplyOne(m.(creator := creator), Item.Number(2, id), ApplyCancelSend);
    ApplyAppend(m, a, b, ApplyCancelSend);
    EncodeAppend(a, b);
    FieldSizes(1, creator, 0, false);
    SmallText(creator);
    EncodeOne(Item.Number(2, id));
    VarintOfWord(id);
    assert AllFit(a + b, CancelSendSchema());
    FoldItems(a + b, m, CancelSendSchema(), ApplyCancelSend);
  }

  lemma SmallText(s: Bytes)
    requires |s| < 0x1_0000_0000
    ensures TextSize(s) < 0x2_0000_0000
  {
    VarintOfWord(|s|);
    SovIsLength(|s|);
  }

  lemma SetFinalOnlyAgrees(creator: Bytes, finalOnly: bool)
    requires |creator| < 0x1_0000_0000
    ensures var m: JsObject := map["creator" := Chars(creator), "finalonly" := Bool(finalOnly)];
      && TableOk(SET_FINAL_ONLY) && ObjectOk(m, SET_FINAL_ONLY)
      && EncodeAll(TableItems(m, SET_FINAL_ONLY)) == MarshalSetFinalOnly(MsgSetFinalOnly(creator, finalOnly))
      && UnmarshalSetFinalOnly(EncodeAll(TableItems(m, SET_FINAL_ONLY)), MsgSetFinalOnly([], false)) ==
         Good(MsgSetFinalOnly(creator, finalOnly))
  {
    var m: JsObject := map["creator" := Chars(creator), "finalonly" := Bool(finalOnly)];
    TwoRows(m, SET_FINAL_ONLY[0], SET_FINAL_ONLY[1]);
    assert "creator" != "finalonly";
    var s := MsgSetFinalOnly(creator, finalOnly);
    SetFinalOnlySize(s);
    SmallText(creator);
    SetFinalOnlyRoundTrip(s);
  }

  /** The nested coin as the wallet writes it: denomination 1, amount 2, both as text. */
  function CoinBytes(denom: Bytes, amount: Bytes): Bytes {
    EncodeAll(Messages.Text(1, denom) + Messages.Text(2, amount))
  }

  /** What the hand-written encoder puts on the wire; the window goes through the wallet's numbers. */
  function DelayedSendItems(coins: CoinCodec, m: MsgDelayedSend): (items: seq<Item>)
    ensures Writable(items)
  {
    Messages.Text(1, m.creator) + Messages.Text(2, m.recipient) + [Chunk(3, coins.encode(m.amount))]
    + if m.window == 0 then [] else [Item.Number(4, WrapU64(ToNumber(m.window)))]
  }

  /** The hand-written encoder of a delayed send is the chain's marshaller exactly if the window survives the
      wallet's numbers, for any coin codec that writes the coin the way the wallet does. */
  method EncodeDelayedSend(coins: CoinCodec, m: MsgDelayedSend, denom: Bytes, amount: Bytes) returns (bytes: Bytes)
    requires |m.creator| < 0x1_0000_0000 && |m.recipient| < 0x1_0000_0000
    requires |denom| < 0x1_0000_0000 && |amount| < 0x1_0000_0000 && |CoinBytes(denom, amount)| < 0x1_0000_0000
    requires coins.encode(m.amount) == CoinBytes(denom, amount)
    ensures bytes == EncodeAll(DelayedSendItems(coins, m))
    ensures bytes == MarshalDelayedSend(coins, m) <==> IsExact(m.window)
  {
    DelayedSendAgrees(coins, m);
    hide Messages.Text, Word, EncodeAll, Varint, ToNumber, IsExact, DelayedSendItems;
    DelayedSendParts(coins, m);
    var w := new ForwardWriter();
    EncodeRow(w, Chars(m.creator), Row("creator", 1, JsString));
    EncodeRow(w, Chars(m.recipient), Row("recipient", 2, JsString));
    var c := new ForwardWriter();
    EncodeRow(c, Chars(denom), Row("denom", 1, JsString));
    EncodeRow(c, Chars(amount), Row("amount", 2, JsString));
    EncodeAppend(Messages.Text(1, denom), Messages.Text(2, amount));
    assert c.out == CoinBytes(denom, amount);
    PutText(w, 3, c.out);
    EncodeRow(w, Num(m.window), Row("window", 4, JsUint64));
    bytes := w.out;
  }

  lemma DelayedSendParts(coins: CoinCodec, m: MsgDelayedSend)
    ensures EncodeAll(DelayedSendItems(coins, m)) ==
      EncodeAll(Messages.Text(1, m.creator)) + EncodeAll(Messages.Text(2, m.recipient)) + EncodeAll([Chunk(3, coins.encode(m.amount))])
      + EncodeAll(if m.window == 0 then [] else [Item.Number(4, WrapU64(ToNumber(m.window)))])
  {
    hide Messages.Text, EncodeAll, ToNumber;
    var a, b, c := Messages.Text(1, m.creator), Messages.Text(2, m.recipient), [Chunk(3, coins.encode(m.amount))];
    var d := if m.window == 0 then [] else [Item.Number(4, WrapU64(ToNumber(m.window)))];
    EncodeAppend(a, b);
    EncodeAppend(a + b, c);
    EncodeAppend(a + b + c, d);
  }

  lemma DelayedSendAgrees(coins: CoinCodec, m: MsgDelayedSend)
    ensures EncodeAll(DelayedSendItems(coins, m)) == MarshalDelayedSend(coins, m) <==> IsExact(m.window)
  {
    hide Messages.Text, Word, EncodeAll, ToNumber, IsExact, DelayedSendItems;
    var prefix := EncodeAll(Messages.Text(1, m.creator)) + EncodeAll(Messages.Text(2, m.recipient))
      + EncodeAll([Chunk(3, coins.encode(m.amount))]);
    DelayedSendParts(coins, m);
    DelayedSendBytes(coins, m);
    WordIs(4, m.window);
    ToNumberExact(m.window);
    if m.window != 0 {
      var x := WrapU64(ToNumber(m.window));
      WindowKept(m.window);
      if EncodeAll([Item.Number(4, x)]) == EncodeAll([Item.Number(4, m.window)]) {
        NumberInjective(4, x, m.window);
      }
      SamePrefix(prefix, EncodeAll([Item.Number(4, x)]), EncodeAll([Item.Number(4, m.window)]));
    }
  }

  /** What the chain reads from it: the send, with the window rounded to a double. */
  lemma WalletDelayedSendReads(coins: CoinCodec, m: MsgDelayedSend)
    requires RoundTrips(coins) && |EncodeAll(DelayedSendItems(coins, m))| < TWO_63
    ensures UnmarshalDelayedSend(coins, EncodeAll(DelayedSendItems(coins, m)), NO_SEND) ==
      Good(m.(window := WrapU64(ToNumber(m.window))))
  {
    hide Messages.Text, EncodeAll, ToNumber, IsExact, Fold, UnmarshalDelayedSend;
    ToNumberExact(m.window);
    DelayedSendReads(coins, m.(window := WrapU64(ToNumber(m.window))),
                     if m.window == 0 then [] else [Item.Number(4, WrapU64(ToNumber(m.window)))]);
  }

  lemma WindowKept(v: U64)
    ensures WrapU64(ToNumber(v)) == v <==> IsExact(v)
  {
    ToNumberExact(v);
    ToNumberNear(v);
    hide ToNumber, IsExact;
  }

  lemma SamePrefix(p: Bytes, a: Bytes, b: Bytes)
    ensures p + a == p + b <==> a == b
  {
    if p + a == p + b {
      assert a == (p + a)[|p|..] == (p + b)[|p|..] == b;
    }
  }

  /** One number is written one way only. */
  lemma NumberInjective(field: nat, x: U64, y: U64)
    requires EncodeAll([Item.Number(field, x)]) == EncodeAll([Item.Number(field, y)])
    ensures x == y
  {
    EncodeOne(Item.Number(field, x));
    EncodeOne(Item.Number(field, y));
    SamePrefix(Varint(8 * field), Varint(x), Varint(y));
    VarintOfWord(x);
    VarintOfWord(y);
  }

  lemma WordIs(field: nat, v: U64)
    ensures Word(field, v) == if v == 0 then [] else [Item.Number(field, v)]
  {
  }

  lemma DelayedSendBytes(coins: CoinCodec, m: MsgDelayedSend)
    ensures MarshalDelayedSend(coins, m) == EncodeAll(Messages.Text(1, m.creator)) + EncodeAll(Messages.Text(2, m.recipient))
      + EncodeAll([Chunk(3, coins.encode(m.amount))]) + EncodeAll(Word(4, m.window))
  {
    var a, b, c, d := Messages.Text(1, m.creator), Messages.Text(2, m.recipient), [Chunk(3, coins.encode(m.amount))], Word(4, m.window);
    EncodeAppend(a, b);
    EncodeAppend(a + b, c);
    EncodeAppend(a + b + c, d);
  }
}
