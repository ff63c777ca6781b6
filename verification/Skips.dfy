/** Skipping an unknown field: the loop with a depth counter accepts exactly one field of the recursive
    wire grammar, groups nested to any depth included. */
module Skips {
  import opened Words
  import opened Varints

  // ---- The grammar ----

  /** One field as it stands on the wire. Tags and lengths are kept as the bytes they were written with,
      since a varint need not be the shortest. */
  datatype Field =
    | Scalar(tag: Bytes, value: Bytes)
    | Fixed64(tag: Bytes, body: Bytes)
    | Delimited(tag: Bytes, length: Bytes, body: Bytes)
    | Group(tag: Bytes, fields: seq<Field>, close: Bytes)
    | Fixed32(tag: Bytes, body: Bytes)

  function Flat(f: Field): Bytes {
    match f
    case Scalar(tag, value) => tag + value
    case Fixed64(tag, body) => tag + body
    case Delimited(tag, length, body) => tag + length + body
    case Group(tag, fields, close) => tag + (FlatAll(fields) + close)
    case Fixed32(tag, body) => tag + body
  }

  function FlatAll(fs: seq<Field>): Bytes {
    if fs == [] then [] else Flat(fs[0]) + FlatAll(fs[1..])
  }

  predicate IsTag(s: Bytes, wireType: nat) {
    IsVarint(s) && WrapU64(Value(s)) % 8 == wireType
  }

  /** Well formed: the tag announces what follows. The field numbers of the two ends of a group need not
      agree: the source does not look at them. */
  predicate WellFormed(f: Field) {
    match f
    case Scalar(tag, value) => IsTag(tag, 0) && IsVarint(value)
    case Fixed64(tag, body) => IsTag(tag, 1) && |body| == 8
    case Delimited(tag, length, body) => IsTag(tag, 2) && IsVarint(length) && WrapU64(Value(length)) == |body| < TWO_63
    case Group(tag, fields, close) => IsTag(tag, 3) && IsTag(close, 4) && AllWellFormed(fields)
    case Fixed32(tag, body) => IsTag(tag, 5) && |body| == 4
  }

  predicate AllWellFormed(fs: seq<Field>) {
    fs == [] || (WellFormed(fs[0]) && AllWellFormed(fs[1..]))
  }

  // ---- The loop ----

  /** One turn of the loop: where the next token ends and the depth behind it. */
  function Token(data: Bytes, pos: nat, depth: nat): (r: Decoded<(nat, nat)>)
    ensures r.Good? ==> pos < r.value.0 < TWO_63
  {
    match ReadVarint(data, pos)
    case Bad(e) => Bad(e)
    case Good((wire, i)) =>
      var next :=
        match wire % 8
        case 0 => (match Scan(data, i, 0) case Bad(e) => Bad(e) case Good(end) => Good((end, depth)))
        case 1 => Good((i + 8, depth))
        case 2 => (match ReadVarint(data, i)
                   case Bad(e) => Bad(e)
                   case Good((length, j)) => if ToI64(length) < 0 then Bad(InvalidLength) else Good((j + length, depth)))
        case 3 => Good((i, depth + 1))
        case 4 => if depth == 0 then Bad(UnexpectedEndOfGroup) else Good((i, depth - 1))
        case 5 => Good((i + 4, depth))
        case _ => Bad(IllegalWireType);
      if next.Good? && next.value.0 >= TWO_63 then Bad(InvalidLength) else next
  }

  function SkipFrom(data: Bytes, pos: nat, depth: nat): (r: Decoded<nat>)
    ensures r.Good? ==> pos < r.value < TWO_63
    decreases |data| - pos
  {
    if pos >= |data| then Bad(UnexpectedEOF)
    else
      match Token(data, pos, depth)
      case Bad(e) => Bad(e)
      case Good((next, d)) => if d == 0 then Good(next) else SkipFrom(data, next, d)
  }

  /** How many bytes the field at the start of data takes. The number is positive, but a fixed-size or
      delimited field at depth 0 may reach beyond the end of data: the callers check. */
  function Skip(data: Bytes): (r: Decoded<nat>)
    ensures r.Good? ==> 0 < r.value < TWO_63
  {
    SkipFrom(data, 0, 0)
  }

  /** What the loop does behind a token. */
  function After(data: Bytes, pos: nat, depth: nat): Decoded<nat> {
    if depth == 0 then Good(pos) else SkipFrom(data, pos, depth)
  }

  // ---- Fields are skipped whole ----

  /** s stands in data at pos. */
  predicate At(data: Bytes, pos: nat, s: Bytes) {
    pos + |s| <= |data| && data[pos..pos + |s|] == s
  }

  lemma AtSplit(data: Bytes, pos: nat, a: Bytes, b: Bytes)
    requires At(data, pos, a + b)
    ensures At(data, pos, a) && At(data, pos + |a|, b)
  {
    var s := data[pos..pos + |a + b|];
    assert s[..|a|] == a && s[|a|..] == b;
    assert data[pos..pos + |a|] == s[..|a|];
    assert data[pos + |a|..pos + |a| + |b|] == s[|a|..];
  }

  lemma ReadsAt(data: Bytes, pos: nat, s: Bytes)
    requires IsVarint(s) && At(data, pos, s)
    ensures ReadVarint(data, pos) == Good((WrapU64(Value(s)), pos + |s|))
    ensures Scan(data, pos, 0) == Good(pos + |s|)
  {
    ReadsExactly(data, pos, pos + |s|);
  }

  /** A field that is not a group is one token. */
  lemma TokenOfLeaf(data: Bytes, pos: nat, f: Field, depth: nat)
    requires WellFormed(f) && !f.Group? && At(data, pos, Flat(f)) && |data| < TWO_63
    ensures Token(data, pos, depth) == Good((pos + |Flat(f)|, depth))
  {
    hide Token, At, IsTag, IsVarint, Value, WrapU64, FlatAll, AllWellFormed;
    AtEnds(data, pos, Flat(f));
    match f
    case Scalar(tag, value) =>
      AtSplit(data, pos, tag, value);
      TokenOfScalar(data, pos, tag, value, depth);
    case Delimited(tag, length, body) =>
      AtSplit(data, pos, tag + length, body);
      AtSplit(data, pos, tag, length);
      TokenOfDelimited(data, pos, tag, length, body, depth);
    case Fixed64(tag, body) =>
      AtSplit(data, pos, tag, body);
      TokenOfFixed(data, pos, tag, 1, depth);
    case Fixed32(tag, body) =>
      AtSplit(data, pos, tag, body);
      TokenOfFixed(data, pos, tag, 5, depth);
  }

  lemma TokenOfScalar(data: Bytes, pos: nat, tag: Bytes, value: Bytes, depth: nat)
    requires IsTag(tag, 0) && IsVarint(value) && At(data, pos, tag) && At(data, pos + |tag|, value) && |data| < TWO_63
    ensures Token(data, pos, depth) == Good((pos + |tag| + |value|, depth))
  {
    hide ReadVarint, Scan, Value, WrapU64;
    ReadsAt(data, pos, tag);
    ReadsAt(data, pos + |tag|, value);
  }

  lemma TokenOfDelimited(data: Bytes, pos: nat, tag: Bytes, length: Bytes, body: Bytes, depth: nat)
    requires IsTag(tag, 2) && IsVarint(length) && WrapU64(Value(length)) == |body| < TWO_63
    requires At(data, pos, tag) && At(data, pos + |tag|, length)
    requires pos + |tag| + |length| + |body| < TWO_63
    ensures Token(data, pos, depth) == Good((pos + |tag| + |length| + |body|, depth))
  {
    hide ReadVarint, Scan, Value, WrapU64;
    ReadsAt(data, pos, tag);
    ReadsAt(data, pos + |tag|, length);
  }

  lemma TokenOfFixed(data: Bytes, pos: nat, tag: Bytes, wireType: nat, depth: nat)
    requires (wireType == 1 || wireType == 5) && IsTag(tag, wireType) && At(data, pos, tag)
    requires pos + |tag| + 8 < TWO_63 || (wireType == 5 && pos + |tag| + 4 < TWO_63)
    ensures wireType == 1 && pos + |tag| + 8 < TWO_63 ==> Token(data, pos, depth) == Good((pos + |tag| + 8, depth))
    ensures wireType == 5 ==> Token(data, pos, depth) == Good((pos + |tag| + 4, depth))
  {
    hide ReadVarint, Scan, Value, WrapU64;
    ReadsAt(data, pos, tag);
  }

  lemma AtEnds(data: Bytes, pos: nat, s: Bytes)
    requires At(data, pos, s)
    ensures pos + |s| <= |data|
  {
  }

  lemma TokenOfOpen(data: Bytes, pos: nat, tag: Bytes, depth: nat)
    requires IsTag(tag, 3) && At(data, pos, tag) && |data| < TWO_63
    ensures Token(data, pos, depth) == Good((pos + |tag|, depth + 1))
  {
    ReadsAt(data, pos, tag);
  }

  lemma TokenOfClose(data: Bytes, pos: nat, tag: Bytes, depth: nat)
    requires IsTag(tag, 4) && At(data, pos, tag) && |data| < TWO_63 && depth > 0
    ensures Token(data, pos, depth) == Good((pos + |tag|, depth - 1))
  {
    ReadsAt(data, pos, tag);
  }

  lemma SkipStep(data: Bytes, pos: nat, depth: nat, next: nat, d: nat)
    requires pos < |data| && Token(data, pos, depth) == Good((next, d))
    ensures SkipFrom(data, pos, depth) == After(data, next, d)
  {
  }

  lemma FlatNonEmpty(f: Field)
    requires WellFormed(f)
    ensures |Flat(f)| > 0
  {
  }

  /** From the start of a well-formed field the loop gets to its end, at the depth it came with. */
  lemma {:induction false} SkipField(data: Bytes, pos: nat, f: Field, depth: nat)
    requires WellFormed(f) && At(data, pos, Flat(f)) && |data| < TWO_63
    ensures SkipFrom(data, pos, depth) == After(data, pos + |Flat(f)|, depth)
    decreases f
  {
    hide Token, SkipFrom, At, IsTag;
    FlatNonEmpty(f);
    AtEnds(data, pos, Flat(f));
    if f.Group? {
      var tag, inner := f.tag, FlatAll(f.fields);
      AtSplit(data, pos, tag, inner + f.close);
      AtSplit(data, pos + |tag|, inner, f.close);
      TokenOfOpen(data, pos, tag, depth);
      SkipStep(data, pos, depth, pos + |tag|, depth + 1);
      SkipFields(data, pos + |tag|, f.fields, depth + 1);
      var at := pos + |tag| + |inner|;
      TokenOfClose(data, at, f.close, depth + 1);
      CloseNonEmpty(data, at, f.close);
      SkipStep(data, at, depth + 1, at + |f.close|, depth);
    } else {
      TokenOfLeaf(data, pos, f, depth);
      SkipStep(data, pos, depth, pos + |Flat(f)|, depth);
    }
  }

  lemma CloseNonEmpty(data: Bytes, pos: nat, close: Bytes)
    requires IsTag(close, 4) && At(data, pos, close)
    ensures pos < |data|
  {
  }

  lemma {:induction false} SkipFields(data: Bytes, pos: nat, fs: seq<Field>, depth: nat)
    requires AllWellFormed(fs) && At(data, pos, FlatAll(fs)) && |data| < TWO_63 && depth > 0
    ensures SkipFrom(data, pos, depth) == SkipFrom(data, pos + |FlatAll(fs)|, depth)
    decreases fs
  {
    hide SkipFrom, At, Flat, WellFormed;
    if fs != [] {
      AtSplit(data, pos, Flat(fs[0]), FlatAll(fs[1..]));
      SkipField(data, pos, fs[0], depth);
      SkipFields(data, pos + |Flat(fs[0])|, fs[1..], depth);
    }
  }

  // ---- And nothing else is ----

  /** A token of the length-delimited kind, behind its tag. */
  lemma DelimitedShape(data: Bytes, pos: nat, i: nat, next: nat) returns (f: Field)
    requires pos < i <= |data| && IsTag(data[pos..i], 2) && next <= |data|
    requires ReadVarint(data, i).Good? && ToI64(ReadVarint(data, i).value.0) >= 0
    requires next == ReadVarint(data, i).value.1 + ReadVarint(data, i).value.0
    ensures WellFormed(f) && Flat(f) == data[pos..next]
  {
    var (length, j) := ReadVarint(data, i).value;
    ReadsExactly(data, i, j);
    hide ReadVarint, Value, IsTag, IsVarint, WrapU64;
    f := Delimited(data[pos..i], data[i..j], data[j..next]);
    assert data[pos..next] == data[pos..i] + data[i..j] + data[j..next];
  }

  /** A token cut out of a longer input. */
  lemma TokenShape(data: Bytes, pos: nat, depth: nat, next: nat, d: nat) returns (f: Field)
    requires Token(data, pos, depth) == Good((next, d)) && next <= |data|
    ensures d == depth ==> WellFormed(f) && Flat(f) == data[pos..next]
    ensures d == depth + 1 ==> IsTag(data[pos..next], 3)
    ensures depth > 0 && d == depth - 1 ==> IsTag(data[pos..next], 4)
    ensures d == depth || d == depth + 1 || (depth > 0 && d == depth - 1)
  {
    var (wire, i) := ReadVarint(data, pos).value;
    ReadsExactly(data, pos, i);
    var tag := data[pos..i];
    assert IsTag(tag, wire % 8);
    hide ReadVarint, Scan, Value, IsTag, IsVarint, FlatAll, AllWellFormed;
    f := Fixed32(tag, data[i..next]);
    if wire % 8 == 0 {
      ScanFinds(data, i, 0, next);
      ReadsExactly(data, i, next);
      f := Scalar(tag, data[i..next]);
    } else if wire % 8 == 1 {
      f := Fixed64(tag, data[i..next]);
    } else if wire % 8 == 2 {
      f := DelimitedShape(data, pos, i, next);
    }
    if i <= next { assert data[pos..next] == tag + data[i..next]; }
  }

  /** The levels of nesting still open: on each, the fields read and the tag that closed it. */
  datatype Level = Level(fields: seq<Field>, close: Bytes)

  function FlatLevels(levels: seq<Level>): Bytes {
    if levels == [] then [] else FlatAll(levels[0].fields) + levels[0].close + FlatLevels(levels[1..])
  }

  predicate LevelsWellFormed(levels: seq<Level>) {
    forall l :: l in levels ==> AllWellFormed(l.fields) && IsTag(l.close, 4)
  }

  /** From depth d > 0 the loop has read the rest of d groups. */
  lemma {:induction false} SkipReads(data: Bytes, pos: nat, depth: nat, end: nat) returns (levels: seq<Level>)
    requires SkipFrom(data, pos, depth) == Good(end) && depth > 0 && end <= |data|
    ensures |levels| == depth && LevelsWellFormed(levels) && data[pos..end] == FlatLevels(levels)
    decreases |data| - pos
  {
    var (next, d) := Token(data, pos, depth).value;
    assert if d == 0 then next == end else SkipFrom(data, next, d) == Good(end);
    hide Token, SkipFrom, IsTag, WellFormed, Flat, FlatLevels, LevelsWellFormed;
    var f := TokenShape(data, pos, depth, next, d);
    if d == 0 {
      levels := [Level([], data[pos..next])];
      LastLevel(data[pos..next]);
    } else {
      levels := SkipReads(data, next, d, end);
      assert data[pos..end] == data[pos..next] + data[next..end];
      levels := Reopen(levels, depth, d, f, data[pos..next]);
    }
  }

  lemma LastLevel(token: Bytes)
    requires IsTag(token, 4)
    ensures LevelsWellFormed([Level([], token)]) && FlatLevels([Level([], token)]) == token
  {
    hide IsTag;
    FlatNone();
    assert FlatLevels([Level([], token)][1..]) == [];
  }

  /** Puts one token in front of what was read behind it. */
  lemma Reopen(levels: seq<Level>, depth: nat, d: nat, f: Field, token: Bytes) returns (r: seq<Level>)
    requires |levels| == d > 0 && LevelsWellFormed(levels) && depth > 0
    requires d == depth || d == depth + 1 || d == depth - 1
    requires d == depth ==> WellFormed(f) && Flat(f) == token
    requires d == depth + 1 ==> IsTag(token, 3)
    requires d == depth - 1 ==> IsTag(token, 4)
    ensures |r| == depth && LevelsWellFormed(r) && FlatLevels(r) == token + FlatLevels(levels)
  {
    hide FlatAll, IsTag, AllWellFormed, WellFormed, Flat, LevelsWellFormed, FlatLevels;
    if d == depth - 1 {
      FlatNone();
      r := [Level([], token)] + levels;
      LevelsCons(Level([], token), levels);
    } else {
      var first, others := levels[0], levels[1..];
      assert levels == [first] + others;
      if d == depth {
        r := [Level([f] + first.fields, first.close)] + others;
        AddField(f, first, others);
      } else {
        var second := others[0];
        assert others == [second] + others[1..];
        LevelsCons(first, others);
        r := [Level([Group(token, first.fields, first.close)] + second.fields, second.close)] + others[1..];
        CloseGroup(token, first.fields, first.close);
        AddField(Group(token, first.fields, first.close), second, others[1..]);
      }
    }
  }

  lemma LevelsCons(l: Level, others: seq<Level>)
    ensures FlatLevels([l] + others) == FlatAll(l.fields) + l.close + FlatLevels(others)
    ensures LevelsWellFormed([l] + others) <==>
      AllWellFormed(l.fields) && IsTag(l.close, 4) && LevelsWellFormed(others)
  {
    hide FlatAll, IsTag, AllWellFormed;
    var all := [l] + others;
    assert all[1..] == others;
    assert l in all && forall o :: o in others ==> o in all;
  }

  lemma AddField(f: Field, first: Level, others: seq<Level>)
    requires WellFormed(f) && LevelsWellFormed([first] + others)
    ensures LevelsWellFormed([Level([f] + first.fields, first.close)] + others)
    ensures FlatLevels([Level([f] + first.fields, first.close)] + others) == Flat(f) + FlatLevels([first] + others)
  {
    hide FlatAll, IsTag, AllWellFormed, WellFormed, Flat, LevelsWellFormed, FlatLevels;
    LevelsCons(first, others);
    LevelsCons(Level([f] + first.fields, first.close), others);
    FlatCons(f, first.fields);
  }

  lemma CloseGroup(tag: Bytes, fields: seq<Field>, close: Bytes)
    requires IsTag(tag, 3) && IsTag(close, 4) && AllWellFormed(fields)
    ensures WellFormed(Group(tag, fields, close))
    ensures Flat(Group(tag, fields, close)) == tag + (FlatAll(fields) + close)
  {
  }

  lemma FlatNone()
    ensures FlatAll([]) == [] && AllWellFormed([])
  {
  }

  lemma FlatCons(f: Field, fs: seq<Field>)
    ensures FlatAll([f] + fs) == Flat(f) + FlatAll(fs)
    ensures AllWellFormed([f] + fs) <==> WellFormed(f) && AllWellFormed(fs)
  {
    assert ([f] + fs)[1..] == fs;
  }

  lemma NoLevels()
    ensures FlatLevels([]) == []
  {
  }

  /** A group is its opening tag and one level. */
  lemma GroupOfLevel(tag: Bytes, levels: seq<Level>) returns (f: Field)
    requires IsTag(tag, 3) && |levels| == 1 && LevelsWellFormed(levels)
    ensures WellFormed(f) && Flat(f) == tag + FlatLevels(levels)
  {
    hide IsTag, WellFormed, AllWellFormed, Flat, FlatAll, FlatLevels, LevelsWellFormed;
    var only := levels[0];
    assert levels == [only] + [];
    LevelsCons(only, []);
    NoLevels();
    f := Group(tag, only.fields, only.close);
    CloseGroup(tag, only.fields, only.close);
  }

  lemma SkipStarts(data: Bytes, n: nat) returns (next: nat, d: nat)
    requires Skip(data) == Good(n)
    ensures Token(data, 0, 0) == Good((next, d)) && next > 0
    ensures if d == 0 then next == n else SkipFrom(data, next, d) == Good(n)
  {
    hide Token;
    next, d := Token(data, 0, 0).value.0, Token(data, 0, 0).value.1;
  }

  lemma SkippedIsField(data: Bytes, n: nat) returns (f: Field)
    requires n <= |data| && Skip(data) == Good(n)
    ensures WellFormed(f) && Flat(f) == data[..n]
  {
    hide *;
    var next, d := SkipStarts(data, n);
    f := TokenShape(data, 0, 0, next, d);
    assert data[0..next] == data[..next];
    if d > 0 {
      var levels := SkipReads(data, next, d, n);
      f := GroupOfLevel(data[..next], levels);
      assert data[..n] == data[..next] + data[next..n];
    }
  }

  /** The depth-counter loop and the recursive grammar agree: an answer n within the input means that the
      first n bytes are one well-formed field, and every well-formed field, whatever follows it, is
      answered with its length. */
  lemma SkipExact(data: Bytes, n: nat)
    requires |data| < TWO_63 && n <= |data|
    ensures Skip(data) == Good(n) <==> exists f :: WellFormed(f) && Flat(f) == data[..n]
  {
    hide Skip, SkipFrom, WellFormed, Flat;
    assert data[..n] == data[0..n];
    if Skip(data) == Good(n) { var f := SkippedIsField(data, n); }
    if f :| WellFormed(f) && Flat(f) == data[..n] {
      SkipsWhole(data, f);
    }
  }

  lemma SkipsWhole(data: Bytes, f: Field)
    requires WellFormed(f) && At(data, 0, Flat(f)) && |data| < TWO_63
    ensures Skip(data) == Good(|Flat(f)|)
  {
    hide SkipFrom, WellFormed, Flat, At;
    SkipField(data, 0, f, 0);
  }
}
