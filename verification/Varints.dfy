/** Base 128 varints: seven bits a byte, least significant first, the top bit set on all but the last. */
module Varints {
  import opened Words

  type Bytes = seq<byte>

  datatype CodecError =
    | IntOverflow
    | UnexpectedEOF
    | InvalidLength
    | UnexpectedEndOfGroup
    | EndGroupForNonGroup
    | IllegalTag
    | IllegalWireType
    | WrongWireType
    | BadCoin

  datatype Decoded<+T> = Good(value: T) | Bad(error: CodecError)

  // ---- What a varint is ----

  function Pow128(k: nat): (p: nat)
    ensures p > 0
  {
    if k == 0 then 1 else 128 * Pow128(k - 1)
  }

  /** The number a string of seven-bit digits stands for. */
  function Value(s: Bytes): nat {
    if s == [] then 0 else s[0] % 128 + 128 * Value(s[1..])
  }

  /** At most ten bytes, of which exactly the last has its top bit clear. */
  predicate IsVarint(s: Bytes) {
    1 <= |s| <= 10 && s[|s| - 1] < 128 && forall i :: 0 <= i < |s| - 1 ==> s[i] >= 128
  }

  /** The encoding the writers produce: the shortest varint of a number. */
  function Varint(v: nat): Bytes {
    if v < 128 then [v] else [v % 128 + 128] + Varint(v / 128)
  }

  lemma {:induction false} VarintValue(v: nat)
    ensures Value(Varint(v)) == v
  {
    if v >= 128 {
      VarintValue(v / 128);
      assert Varint(v)[1..] == Varint(v / 128);
    }
  }

  lemma {:induction false} VarintLength(v: nat, k: nat)
    requires v < Pow128(k) && k >= 1
    ensures 1 <= |Varint(v)| <= k
  {
    if v >= 128 {
      assert v / 128 < Pow128(k - 1);
      VarintLength(v / 128, k - 1);
    }
  }

  lemma {:induction false} VarintShape(v: nat)
    ensures |Varint(v)| >= 1 && Varint(v)[|Varint(v)| - 1] < 128
    ensures forall i :: 0 <= i < |Varint(v)| - 1 ==> Varint(v)[i] >= 128
  {
    if v >= 128 { VarintShape(v / 128); }
  }

  /** Every 64-bit word has a varint, and it reads back as the word. */
  lemma VarintOfWord(v: U64)
    ensures IsVarint(Varint(v)) && Value(Varint(v)) == v
  {
    VarintShape(v);
    VarintValue(v);
    Pow128Table();
    VarintLength(v, 10);
  }

  // ---- Its length, as the generated code computes it ----

  /** math/bits.Len64: the position of the highest set bit. */
  function Len64(x: nat): nat {
    if x == 0 then 0 else 1 + Len64(x / 2)
  }

  /** x with its lowest bit set. */
  function Or1(x: nat): nat {
    if x % 2 == 0 then x + 1 else x
  }

  function Sov(x: nat): nat {
    (Len64(Or1(x)) + 6) / 7
  }

  lemma Len64Drop7(x: nat)
    requires x >= 128
    ensures Len64(x) == 7 + Len64(x / 128)
  {
    var a := x / 2; var b := a / 2; var c := b / 2; var d := c / 2; var e := d / 2; var f := e / 2;
    assert Len64(x) == 1 + Len64(a); assert Len64(a) == 1 + Len64(b); assert Len64(b) == 1 + Len64(c);
    assert Len64(c) == 1 + Len64(d); assert Len64(d) == 1 + Len64(e); assert Len64(e) == 1 + Len64(f);
    assert Len64(f) == 1 + Len64(f / 2);
    assert f / 2 == x / 128;
  }

  lemma Len64Small(x: nat)
    requires 0 < x < 128
    ensures 1 <= Len64(x) <= 7
  {
    var a := x / 2; var b := a / 2; var c := b / 2; var d := c / 2; var e := d / 2; var f := e / 2;
    assert Len64(f) <= 1 && Len64(e) <= 2; assert Len64(d) <= 3; assert Len64(c) <= 4;
    assert Len64(b) <= 5; assert Len64(a) <= 6;
  }

  /** The size prediction is exact. */
  lemma {:induction false} SovIsLength(v: nat)
    ensures Sov(v) == |Varint(v)|
  {
    if v < 128 {
      Len64Small(Or1(v));
    } else {
      SovIsLength(v / 128);
      Len64Drop7(Or1(v));
      Len64Or1(v / 128);
      assert Or1(v) / 128 == v / 128;
    }
  }

  /** Setting the lowest bit does not move the highest, unless there was none. */
  lemma Len64Or1(x: nat)
    requires x > 0
    ensures Len64(Or1(x)) == Len64(x)
  {
    assert Or1(x) / 2 == x / 2;
  }

  // ---- Reading ----

  /** Where the varint that starts at pos ends: the loop that looks at one byte after the other,
      and gives up after ten. */
  function Scan(data: Bytes, pos: nat, seen: nat): (r: Decoded<nat>)
    ensures r.Good? ==> pos < r.value <= |data|
    decreases |data| - pos
  {
    if seen >= 10 then Bad(IntOverflow)
    else if pos >= |data| then Bad(UnexpectedEOF)
    else if data[pos] < 128 then Good(pos + 1)
    else Scan(data, pos + 1, seen + 1)
  }

  /** The word read at pos, and the position behind it. Bits beyond the sixty-fourth are lost. */
  function ReadVarint(data: Bytes, pos: nat): (r: Decoded<(U64, nat)>)
    ensures r.Good? ==> pos < r.value.1 <= |data|
  {
    match Scan(data, pos, 0)
    case Bad(e) => Bad(e)
    case Good(end) => Good((WrapU64(Value(data[pos..end])), end))
  }

  lemma {:induction false} ScanFinds(data: Bytes, pos: nat, seen: nat, end: nat)
    requires seen <= 10
    ensures Scan(data, pos, seen) == Good(end) <==>
      && pos < end <= |data| && end - pos <= 10 - seen
      && data[end - 1] < 128 && forall i :: pos <= i < end - 1 ==> data[i] >= 128
    decreases |data| - pos
  {
    if seen < 10 && pos < |data| && data[pos] >= 128 {
      ScanFinds(data, pos + 1, seen + 1, end);
    }
  }

  /** Reading succeeds exactly on a well-formed varint, with the value it stands for. */
  lemma ReadsExactly(data: Bytes, pos: nat, end: nat)
    ensures ReadVarint(data, pos).Good? && ReadVarint(data, pos).value.1 == end <==>
      pos < end <= |data| && IsVarint(data[pos..end])
    ensures ReadVarint(data, pos).Good? && ReadVarint(data, pos).value.1 == end ==>
      ReadVarint(data, pos).value.0 == WrapU64(Value(data[pos..end]))
  {
    ScanFinds(data, pos, 0, end);
    if pos < end <= |data| {
      var s := data[pos..end];
      assert s[|s| - 1] == data[end - 1];
      if IsVarint(s) {
        forall i | pos <= i < end - 1 ensures data[i] >= 128 { assert s[i - pos] == data[i]; }
      }
    }
  }

  /** The round trip of a word, wherever its varint stands. */
  lemma ReadsWord(data: Bytes, pos: nat, v: U64)
    requires pos + |Varint(v)| <= |data| && data[pos..pos + |Varint(v)|] == Varint(v)
    ensures ReadVarint(data, pos) == Good((v, pos + |Varint(v)|))
  {
    hide Scan, IsVarint, Value, Varint, ReadVarint;
    VarintOfWord(v);
    ReadsExactly(data, pos, pos + |Varint(v)|);
  }

  // ---- The loops ----

  function Pow2(k: nat): (p: nat)
    ensures p > 0
  {
    if k == 0 then 1 else 2 * Pow2(k - 1)
  }

  /** x << s on 64-bit words. */
  function Shl(x: nat, s: nat): U64 {
    WrapU64(x * Pow2(s))
  }

  lemma Pow2Next(k: nat)
    ensures Pow2(0) == 1 && Pow2(k + 1) == 2 * Pow2(k)
  {
  }

  lemma {:induction false} Pow2Is128(k: nat)
    ensures Pow2(7 * k) == Pow128(k)
  {
    hide Pow2;
    if k == 0 {
      Pow2Next(0);
    } else {
      Pow2Is128(k - 1);
      var j := 7 * (k - 1);
      Pow2Next(j); Pow2Next(j + 1); Pow2Next(j + 2); Pow2Next(j + 3); Pow2Next(j + 4); Pow2Next(j + 5); Pow2Next(j + 6);
    }
  }

  lemma {:induction false} ValueAppend(s: Bytes, b: byte)
    ensures Value(s + [b]) == Value(s) + b % 128 * Pow128(|s|)
    ensures Value(s) < Pow128(|s|)
  {
    if s != [] {
      assert (s + [b])[1..] == s[1..] + [b];
      ValueAppend(s[1..], b);
      MulAssoc(128, b % 128, Pow128(|s| - 1));
    }
  }

  lemma MulAssoc(a: nat, b: nat, c: nat)
    ensures a * (b * c) == b * (a * c)
  {
  }

  lemma WrapSum(a: nat, b: nat)
    requires a + WrapU64(b) < TWO_64
    ensures WrapU64(a + b) == a + WrapU64(b)
  {
  }

  /** One turn of the reading loop: the next seven bits go above those read so far. The source joins the two
      with a bitwise or; their bits do not overlap, so the sum below is the same word. */
  lemma ReadTurn(s: Bytes, b: byte)
    requires |s| <= 9
    ensures Value(s) < TWO_64 && Value(s) + Shl(b % 128, 7 * |s|) < TWO_64
    ensures WrapU64(Value(s + [b])) == Value(s) + Shl(b % 128, 7 * |s|)
  {
    hide Value, Pow2, Pow128, WrapU64;
    ValueAppend(s, b);
    Pow2Is128(|s|);
    var x: nat := b % 128;
    var y: nat := x * Pow128(|s|);
    assert Shl(x, 7 * |s|) == WrapU64(y) && Value(s + [b]) == Value(s) + y;
    TurnFits(Value(s), x, |s|);
    WrapSum(Value(s), y);
  }

  lemma TurnFits(v: nat, x: nat, n: nat)
    requires n <= 9 && v < Pow128(n) && x < 128
    ensures v < TWO_64 && v + WrapU64(x * Pow128(n)) < TWO_64
  {
    Pow128Table();
    hide Pow128;
    if n == 9 {
      assert x * 0x8000_0000_0000_0000 == x / 2 * TWO_64 + x % 2 * 0x8000_0000_0000_0000;
    } else if n == 8 { assert Pow128(n) == 0x100_0000_0000_0000; }
    else if n == 7 { assert Pow128(n) == 0x2_0000_0000_0000; }
    else if n == 6 { assert Pow128(n) == 0x400_0000_0000; }
    else if n == 5 { assert Pow128(n) == 0x8_0000_0000; }
    else if n == 4 { assert Pow128(n) == 0x1000_0000; }
    else if n == 3 { assert Pow128(n) == 0x20_0000; }
    else if n == 2 { assert Pow128(n) == 0x4000; }
    else if n == 1 { assert Pow128(n) == 0x80; }
  }

  lemma Pow128Table()
    ensures Pow128(0) == 1 && Pow128(1) == 0x80 && Pow128(2) == 0x4000 && Pow128(3) == 0x20_0000
    ensures Pow128(4) == 0x1000_0000 && Pow128(5) == 0x8_0000_0000 && Pow128(6) == 0x400_0000_0000
    ensures Pow128(7) == 0x2_0000_0000_0000 && Pow128(8) == 0x100_0000_0000_0000 && Pow128(9) == 0x8000_0000_0000_0000
    ensures Pow128(10) == 0x40_0000_0000_0000_0000
  {
  }

  // ---- Bits ----

  /** x & y, bit by bit. */
  function And(x: nat, y: nat): nat {
    if x == 0 || y == 0 then 0 else (if x % 2 == 1 && y % 2 == 1 then 1 else 0) + 2 * And(x / 2, y / 2)
  }

  /** x | y, bit by bit. */
  function Or(x: nat, y: nat): nat {
    if x == 0 then y
    else if y == 0 then x
    else (if x % 2 == 1 || y % 2 == 1 then 1 else 0) + 2 * Or(x / 2, y / 2)
  }

  /** x >> k. */
  function Shr(x: nat, k: nat): nat
    decreases k
  {
    if k == 0 then x else Shr(x / 2, k - 1)
  }

  lemma TwiceProduct(x: nat, y: nat)
    ensures 2 * (x * y) == (2 * x) * y && 2 * (x * y) == x * (2 * y)
  {
  }

  lemma {:induction false} Pow2Add(a: nat, b: nat)
    ensures Pow2(a + b) == Pow2(a) * Pow2(b)
  {
    hide Pow2;
    if a == 0 {
      Pow2Next(0);
    } else {
      Pow2Add(a - 1, b);
      Pow2Next(a - 1);
      Pow2Next(a - 1 + b);
      TwiceProduct(Pow2(a - 1), Pow2(b));
    }
  }

  lemma Pow2Is64()
    ensures Pow2(64) == TWO_64
  {
    Pow2Eight();
    hide Pow2;
    Pow2Add(8, 8);
    Pow2Add(16, 16);
    Pow2Add(32, 32);
  }

  lemma Pow2Eight()
    ensures Pow2(3) == 8 && Pow2(7) == 128 && Pow2(8) == 256
  {
    assert Pow2(4) == 16;
  }

  lemma OrStep(x: nat, z: nat)
    ensures Or(0, z) == z && Or(x, 0) == x
    ensures x > 0 && z > 0 ==> Or(x, z) == (if x % 2 == 1 || z % 2 == 1 then 1 else 0) + 2 * Or(x / 2, z / 2)
  {
  }

  lemma Even(half: nat)
    ensures (2 * half) % 2 == 0 && (2 * half) / 2 == half
  {
  }

  /** One turn of an or with an even number. */
  lemma OrTurn(x: nat, half: nat)
    ensures Or(x, 2 * half) == x % 2 + 2 * Or(x / 2, half)
    ensures Or(0, half) == half
  {
    hide Or;
    Even(half);
    var z, u := 2 * half, x / 2;
    OrStep(x, z);
    OrStep(u, half);
    if x > 0 && half > 0 {
      assert Or(x, z) == x % 2 + 2 * Or(u, half);
    }
  }

  /** Below a multiple of 2^k, or is plus. */
  lemma {:induction false} OrIsSum(x: nat, y: nat, k: nat)
    requires x < Pow2(k)
    ensures Or(x, y * Pow2(k)) == x + y * Pow2(k)
    decreases k
  {
    hide Pow2, Or;
    if k == 0 {
      Pow2Next(0);
      OrTurn(x, y);
    } else {
      Pow2Next(k - 1);
      TwiceProduct(y, Pow2(k - 1));
      OrTurn(x, y * Pow2(k - 1));
      OrIsSum(x / 2, y, k - 1);
    }
  }

  /** What a shift to the left leaves of a word is still a multiple. */
  lemma ShlIsMultiple(y: nat, s: nat) returns (z: nat)
    requires s <= 64
    ensures Shl(y, s) == z * Pow2(s)
  {
    Pow2Is64();
    Pow2Add(s, 64 - s);
    hide Pow2, WrapU64;
    z := y % Pow2(64 - s);
    ModParts(y, Pow2(64 - s));
    DropHigh(y / Pow2(64 - s), z, Pow2(s), Pow2(64 - s));
  }

  lemma ModParts(y: nat, q: nat)
    requires q > 0
    ensures y / q >= 0 && y == y / q * q + y % q
  {
  }

  lemma DropHigh(a: nat, b: nat, p: nat, q: nat)
    requires p > 0 && q > 0 && p * q == TWO_64 && b < q
    ensures WrapU64((a * q + b) * p) == b * p
  {
    assert (a * q + b) * p == a * (p * q) + b * p;
    assert b * p < q * p;
    assert WrapU64(a * TWO_64 + b * p) == b * p;
  }

  lemma AndStep(x: nat, m: nat)
    ensures And(x, 2 * m + 1) == x % 2 + 2 * And(x / 2, m)
    ensures And(x, 0) == 0
  {
  }

  lemma {:induction false} AtLeastOnce(u: nat, v: nat, n: nat)
    requires u < v
    ensures v * n >= u * n + n
    decreases v
  {
    assert v * n == (v - 1) * n + n;
    if v > u + 1 { AtLeastOnce(u, v - 1, n); }
  }

  lemma ModUnique(x: nat, n: nat, q: nat, r: nat)
    requires r < n && x == q * n + r
    ensures x % n == r
  {
    var a := x / n;
    if a > q { AtLeastOnce(q, a, n); }
    if a < q { AtLeastOnce(a, q, n); }
  }

  lemma ModDouble(x: nat, p: nat)
    requires p > 0
    ensures x % (2 * p) == x % 2 + 2 * (x / 2 % p)
  {
    var q, r := x / 2 / p, x / 2 % p;
    ModParts(x / 2, p);
    TwiceProduct(q, p);
    ModUnique(x, 2 * p, q, 2 * r + x % 2);
  }

  /** A mask of k ones keeps the low k bits. */
  lemma {:induction false} AndMask(x: nat, k: nat)
    ensures And(x, Pow2(k) - 1) == x % Pow2(k)
    decreases k
  {
    hide And, Pow2;
    if k == 0 {
      Pow2Next(0);
      AndStep(x, 0);
    } else {
      var p := Pow2(k - 1);
      Pow2Next(k - 1);
      AndMask(x / 2, k - 1);
      AndStep(x, p - 1);
      ModDouble(x, p);
    }
  }

  lemma LowBits(x: nat)
    ensures And(x, 0x7f) == x % 128 && And(x, 7) == x % 8
  {
    Pow2Eight();
    hide And, Pow2;
    AndMask(x, 7);
    AndMask(x, 3);
  }

  lemma ShrStep(x: nat, k: nat)
    requires k > 0
    ensures Shr(x, k) == Shr(x / 2, k - 1) && Shr(x, 0) == x
  {
  }

  lemma HighBits(x: nat)
    ensures Shr(x, 7) == x / 128 && Shr(x, 3) == x / 8
  {
    hide Shr;
    var a := x / 2; var b := a / 2; var c := b / 2; var d := c / 2; var e := d / 2; var f := e / 2;
    ShrStep(x, 7); ShrStep(a, 6); ShrStep(b, 5); ShrStep(c, 4); ShrStep(d, 3); ShrStep(e, 2); ShrStep(f, 1); ShrStep(f / 2, 1);
    ShrStep(x, 3); ShrStep(a, 2); ShrStep(b, 1); ShrStep(c, 1);
  }

  lemma OrOne(x: nat)
    ensures Or(x, 1) == Or1(x)
  {
    assert Or(x / 2, 0) == x / 2;
  }

  /** The bytes of a varint, as the writers compute them. */
  lemma WriterBits(x: nat)
    ensures Or(And(x, 0x7f), 0x80) == x % 128 + 128 && Shr(x, 7) == x / 128
  {
    hide And, Or, Shr, Pow2;
    LowBits(x);
    HighBits(x);
    Pow2Eight();
    OrIsSum(x % 128, 1, 7);
  }

  /** Why sums, remainders and quotients may stand for the bit operations of the source: with the accumulator
      below the shift, they are the same words. */
  lemma BitsAreSums(acc: nat, x: nat, s: nat)
    requires s <= 64 && acc < Pow2(s)
    ensures Or(acc, Shl(And(x, 0x7f), s)) == acc + Shl(x % 128, s)
    ensures And(x, 0x7f) == x % 128 && Shr(x, 7) == x / 128 && Or(And(x, 0x7f), 0x80) == x % 128 + 128
    ensures And(x, 7) == x % 8 && Shr(x, 3) == x / 8 && Or(x, 1) == Or1(x)
  {
    hide And, Or, Shr, Shl, Pow2;
    LowBits(x);
    HighBits(x);
    OrOne(x);
    WriterBits(x);
    var z := ShlIsMultiple(x % 128, s);
    OrIsSum(acc, z, s);
  }
}
