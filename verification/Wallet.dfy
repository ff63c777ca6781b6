/** The wallet's amounts: printing micro-units as TFL and reading what a person types. */
module Wallet {
  import opened Words

  // ---- Digits ----

  predicate IsDigit(c: char) {
    '0' <= c <= '9'
  }

  predicate AllDigits(s: string) {
    forall i :: 0 <= i < |s| ==> IsDigit(s[i])
  }

  function Digit(n: nat): (c: char)
    requires n < 10
    ensures IsDigit(c)
  {
    '0' + n as char
  }

  function DigitValue(c: char): nat
    requires IsDigit(c)
  {
    (c - '0') as nat
  }

  /** BigInt's toString. */
  function Decimal(n: nat): (s: string)
    ensures s != [] && AllDigits(s)
  {
    if n < 10 then [Digit(n)] else Decimal(n / 10) + [Digit(n % 10)]
  }

  /** BigInt of a string of digits; the empty string is 0. */
  function Number(s: string): nat
    requires AllDigits(s)
  {
    if s == [] then 0 else 10 * Number(s[..|s| - 1]) + DigitValue(s[|s| - 1])
  }

  function Zeros(n: nat): (s: string)
    ensures |s| == n && AllDigits(s)
    ensures forall i :: 0 <= i < n ==> s[i] == '0'
  {
    seq(n, _ => '0')
  }

  function PadStart(s: string, n: nat): string {
    if |s| >= n then s else Zeros(n - |s|) + s
  }

  function PadEnd(s: string, n: nat): string {
    if |s| >= n then s else s + Zeros(n - |s|)
  }

  /** replace(/0+$/, "") */
  function DropZeros(s: string): string {
    if s != [] && s[|s| - 1] == '0' then DropZeros(s[..|s| - 1]) else s
  }

  /** toLocaleString("en-GB") of a natural number: commas between groups of three digits. */
  function Grouped(s: string): string {
    if |s| <= 3 then s else Grouped(s[..|s| - 3]) + "," + s[|s| - 3..]
  }

  function Fmt(micro: nat): string {
    var frac := DropZeros(PadStart(Decimal(micro % 1_000_000), 6));
    Grouped(Decimal(micro / 1_000_000)) + if frac != [] then "." + frac else ""
  }

  // ---- Reading ----

  /** The characters that trim() removes. */
  predicate IsSpace(c: char) {
    var n := c as int;
    9 <= n <= 13 || n == 0x20 || n == 0xA0 || n == 0x1680 || 0x2000 <= n <= 0x200A || n == 0x2028 || n == 0x2029
    || n == 0x202F || n == 0x205F || n == 0x3000 || n == 0xFEFF
  }

  function TrimStart(s: string): string {
    if s != [] && IsSpace(s[0]) then TrimStart(s[1..]) else s
  }

  function TrimEnd(s: string): string {
    if s != [] && IsSpace(s[|s| - 1]) then TrimEnd(s[..|s| - 1]) else s
  }

  function Trim(s: string): string {
    TrimEnd(TrimStart(s))
  }

  /** How many digits a string starts with. */
  function Lead(s: string): (n: nat)
    ensures n <= |s| && AllDigits(s[..n])
    ensures n == |s| || !IsDigit(s[n])
  {
    if s != [] && IsDigit(s[0]) then
      var n := 1 + Lead(s[1..]);
      assert forall i :: 0 < i < n ==> s[i] == s[1..][i - 1];
      n
    else 0
  }

  /** The match of ^(\d+)(?:\.(\d{1,6}))?$: the whole part and, if there is a point, the fraction. */
  function Match(s: string): (r: Option<(string, string)>)
    ensures r.Some? ==> AllDigits(r.value.0) && AllDigits(r.value.1) && r.value.0 != [] && |r.value.1| <= 6
  {
    var n := Lead(s);
    if n == 0 then None
    else if n == |s| then Some((s, ""))
    else if s[n] == '.' && 1 <= |s| - n - 1 <= 6 && AllDigits(s[n + 1..]) then Some((s[..n], s[n + 1..]))
    else None
  }

  function ParseAmount(s: string): Option<nat> {
    match Match(Trim(s))
    case None => None
    case Some((whole, frac)) => Some(Number(whole) * 1_000_000 + Number(PadEnd(frac, 6)))
  }

  // ---- What undoes what ----

  function NoCommas(s: string): string {
    if s == [] then [] else (if s[0] == ',' then [] else [s[0]]) + NoCommas(s[1..])
  }

  /** The zeros a person may leave out in front: all but the last digit. */
  function DropLeading(s: string): string {
    if |s| > 1 && s[0] == '0' then DropLeading(s[1..]) else s
  }

  /** The shortest way to write a whole part and a fraction. */
  function Shortest(whole: string, frac: string): string {
    DropLeading(whole) + if DropZeros(frac) != [] then "." + DropZeros(frac) else ""
  }

  // ---- Digits and numbers ----

  lemma {:induction false} NumberOfDecimal(n: nat)
    ensures Number(Decimal(n)) == n
  {
    if n >= 10 {
      var s := Decimal(n);
      assert s[..|s| - 1] == Decimal(n / 10) && s[|s| - 1] == Digit(n % 10);
      NumberOfDecimal(n / 10);
    } else {
      assert Decimal(n)[..0] == [];
    }
  }

  lemma {:induction false} NumberZero(s: string)
    requires AllDigits(s) && Number(s) == 0
    ensures s == Zeros(|s|)
  {
    if s != [] { NumberZero(s[..|s| - 1]); }
  }

  lemma {:induction false} NumberPadded(k: nat, s: string)
    requires AllDigits(s)
    ensures AllDigits(Zeros(k) + s) && Number(Zeros(k) + s) == Number(s)
  {
    var t := Zeros(k) + s;
    if s != [] {
      assert t[..|t| - 1] == Zeros(k) + s[..|s| - 1];
      NumberPadded(k, s[..|s| - 1]);
    } else if k > 0 {
      assert t[..|t| - 1] == Zeros(k - 1) + [];
      NumberPadded(k - 1, []);
    } else {
      assert t == s;
    }
  }

  lemma NumberNone()
    ensures Number([]) == 0
  {
  }

  lemma NumberStep(init: string, last: char)
    requires AllDigits(init) && IsDigit(last)
    ensures AllDigits(init + [last]) && Number(init + [last]) == 10 * Number(init) + DigitValue(last)
    ensures Number(init) > 0 ==> Decimal(Number(init + [last])) == Decimal(Number(init)) + [last]
    ensures Number(init) == 0 ==> Decimal(Number(init + [last])) == [last]
  {
    assert (init + [last])[..|init|] == init;
    assert Digit(DigitValue(last)) == last;
  }

  /** Printing the value of a string of digits gives the digits back, up to zeros in front. */
  lemma {:induction false} DecimalOfNumber(t: string)
    requires AllDigits(t) && t != []
    ensures |Decimal(Number(t))| <= |t| && PadStart(Decimal(Number(t)), |t|) == t
  {
    hide Decimal, Number;
    var init, last := t[..|t| - 1], t[|t| - 1];
    assert t == init + [last];
    NumberStep(init, last);
    if Number(init) == 0 {
      NumberZero(init);
    } else {
      assert init != [] by { NumberNone(); }
      DecimalOfNumber(init);
    }
  }

  lemma {:induction false} DecimalLead(n: nat)
    ensures |Decimal(n)| > 1 ==> Decimal(n)[0] != '0'
    ensures n > 0 ==> Decimal(n)[0] != '0'
  {
    if n >= 10 { DecimalLead(n / 10); }
  }

  lemma {:induction false} DropLeadingZeros(k: nat, d: string)
    requires d != [] && (|d| > 1 ==> d[0] != '0')
    ensures DropLeading(Zeros(k) + d) == d
  {
    if k > 0 {
      assert (Zeros(k) + d)[1..] == Zeros(k - 1) + d;
      DropLeadingZeros(k - 1, d);
    } else {
      assert Zeros(k) + d == d;
    }
  }

  lemma DecimalIsShortest(t: string)
    requires AllDigits(t) && t != []
    ensures Decimal(Number(t)) == DropLeading(t)
  {
    DecimalOfNumber(t);
    var d := Decimal(Number(t));
    DecimalLead(Number(t));
    DropLeadingZeros(|t| - |d|, d);
    if |d| == |t| { assert Zeros(0) + d == d; }
  }

  lemma DecimalStep(n: nat)
    requires n >= 10
    ensures |Decimal(n)| == |Decimal(n / 10)| + 1
  {
  }

  lemma DecimalDigit(n: nat)
    requires n < 10
    ensures |Decimal(n)| == 1
  {
  }

  lemma {:induction false} DecimalLonger(n: nat, k: nat)
    requires n > 0 && k > 0
    ensures |Decimal(n)| <= k <==> n < Power10(k)
  {
    hide Decimal;
    if n < 10 {
      DecimalDigit(n);
      Power10Least(k);
    } else {
      DecimalStep(n);
      if k > 1 { DecimalLonger(n / 10, k - 1); }
    }
  }

  function Power10(k: nat): nat {
    if k == 0 then 1 else 10 * Power10(k - 1)
  }

  lemma {:induction false} Power10Least(k: nat)
    requires k > 0
    ensures Power10(k) >= 10
  {
    if k > 1 { Power10Least(k - 1); }
  }

  lemma DecimalLength(n: nat)
    ensures |Decimal(n)| <= 3 <==> n < 1000
    ensures n < 1_000_000 ==> |Decimal(n)| <= 6
  {
    assert Power10(3) == 1000 && Power10(6) == 1_000_000;
    hide Decimal, Power10;
    if n == 0 {
      DecimalDigit(n);
    } else {
      DecimalLonger(n, 3);
      DecimalLonger(n, 6);
    }
  }

  // ---- The fraction ----

  lemma {:induction false} DropZerosPads(t: string, n: nat)
    requires AllDigits(t) && |t| <= n
    ensures AllDigits(DropZeros(t)) && |DropZeros(t)| <= |t|
    ensures PadEnd(DropZeros(t), n) == PadEnd(t, n)
  {
    if t != [] && t[|t| - 1] == '0' {
      var init := t[..|t| - 1];
      DropZerosPads(init, n);
      assert PadEnd(init, n) == PadEnd(t, n) by {
        assert t == init + "0";
        if |t| < n { assert init + Zeros(n - |init|) == t + Zeros(n - |t|); }
      }
    }
  }

  lemma {:induction false} DropZerosAppend(t: string, k: nat)
    ensures DropZeros(t + Zeros(k)) == DropZeros(t)
  {
    if k > 0 {
      assert (t + Zeros(k))[..|t| + k - 1] == t + Zeros(k - 1);
      DropZerosAppend(t, k - 1);
    } else {
      assert t + Zeros(k) == t;
    }
  }

  /** The six digits of a number of micro-units. */
  lemma SixDigits(f: nat)
    requires f < 1_000_000
    ensures var t := PadStart(Decimal(f), 6); |t| == 6 && AllDigits(t) && Number(t) == f
  {
    DecimalLength(f);
    NumberOfDecimal(f);
    NumberPadded(6 - |Decimal(f)|, Decimal(f));
    assert Zeros(0) + Decimal(f) == Decimal(f);
  }

  lemma {:induction false} NumberBound(t: string)
    requires AllDigits(t) && |t| == 6
    ensures Number(t) < 1_000_000
  {
    var a, b, c, d, e := t[..5], t[..4], t[..3], t[..2], t[..1];
    assert a[..4] == b && b[..3] == c && c[..2] == d && d[..1] == e && e[..0] == [];
    assert Number(e) < 10; assert Number(d) < 100; assert Number(c) < 1000;
    assert Number(b) < 10000; assert Number(a) < 100000;
  }

  // ---- Commas ----

  lemma {:induction false} NoCommasAppend(a: string, b: string)
    ensures NoCommas(a + b) == NoCommas(a) + NoCommas(b)
  {
    if a == [] {
      assert a + b == b;
    } else {
      assert (a + b)[1..] == a[1..] + b;
      NoCommasAppend(a[1..], b);
    }
  }

  lemma {:induction false} NoCommasKeeps(s: string)
    requires forall i :: 0 <= i < |s| ==> s[i] != ','
    ensures NoCommas(s) == s
  {
    if s != [] { NoCommasKeeps(s[1..]); }
  }

  lemma {:induction false} Ungrouped(s: string)
    requires AllDigits(s)
    ensures NoCommas(Grouped(s)) == s
  {
    hide NoCommas;
    if |s| <= 3 {
      NoCommasKeeps(s);
    } else {
      var head, tail := s[..|s| - 3], s[|s| - 3..];
      Ungrouped(head);
      NoCommasKeeps(tail);
      OneComma(Grouped(head), tail);
      assert head + tail == s;
    }
  }

  /** Counted from the right, every fourth character of a grouped number is a comma, and no other is; it never
      starts with one. */
  lemma {:induction false} GroupedShape(s: string, k: nat)
    requires AllDigits(s) && k < |Grouped(s)|
    ensures Grouped(s)[|Grouped(s)| - 1 - k] == ',' <==> k % 4 == 3
    ensures Grouped(s)[0] != ','
  {
    if |s| > 3 {
      var head := s[..|s| - 3];
      var g := Grouped(head);
      assert Grouped(s) == g + "," + s[|s| - 3..];
      GroupedShape(head, if k < 4 then 0 else k - 4);
      if k >= 4 { assert Grouped(s)[|Grouped(s)| - 1 - k] == g[|g| - 1 - (k - 4)]; }
    }
  }

  lemma OneComma(a: string, b: string)
    ensures NoCommas(a + "," + b) == NoCommas(a) + NoCommas(b)
  {
    CommaGone();
    hide NoCommas;
    NoCommasAppend(a + ",", b);
    NoCommasAppend(a, ",");
  }

  lemma CommaGone()
    ensures NoCommas(",") == []
  {
  }

  /** A grouped number of more than three digits starts with digits and then a comma. */
  lemma {:induction false} GroupedComma(s: string) returns (i: nat)
    requires AllDigits(s) && |s| > 3
    ensures 0 < i < |Grouped(s)| && AllDigits(Grouped(s)[..i]) && Grouped(s)[i] == ','
  {
    var head := s[..|s| - 3];
    if |head| <= 3 {
      i := |head|;
    } else {
      i := GroupedComma(head);
      assert Grouped(s)[..i] == Grouped(head)[..i];
    }
  }

  // ---- Matching ----

  lemma {:induction false} LeadIs(s: string, n: nat)
    requires n <= |s| && AllDigits(s[..n]) && (n == |s| || !IsDigit(s[n]))
    ensures Lead(s) == n
  {
    if n > 0 {
      assert s[0] == s[..n][0];
      assert s[1..][..n - 1] == s[..n][1..];
      LeadIs(s[1..], n - 1);
    }
  }

  lemma TrimKeeps(s: string)
    requires s != [] && !IsSpace(s[0]) && !IsSpace(s[|s| - 1])
    ensures Trim(s) == s
  {
  }

  function Plain(whole: string, frac: string): string {
    whole + if frac != [] then "." + frac else ""
  }

  lemma MatchesPlain(whole: string, frac: string)
    requires AllDigits(whole) && whole != [] && AllDigits(frac) && |frac| <= 6
    ensures Match(Plain(whole, frac)) == Some((whole, frac))
    ensures Trim(Plain(whole, frac)) == Plain(whole, frac)
  {
    hide Lead, Trim;
    var s := Plain(whole, frac);
    assert s[..|whole|] == whole;
    if frac == [] {
      assert s == whole && frac == "";
    } else {
      assert s[|whole|] == '.' && s[|whole| + 1..] == frac;
      assert s[|s| - 1] == frac[|frac| - 1];
      assert !AllDigits(s);
    }
    LeadIs(s, |whole|);
    TrimKeeps(s);
  }

  // ---- What the parser accepts ----

  predicate AllSpaces(s: string) {
    forall i :: 0 <= i < |s| ==> IsSpace(s[i])
  }

  /** An amount as a person may type it: digits, then possibly a point and up to six digits, and spaces around. */
  ghost predicate Reads(s: string, before: string, whole: string, frac: string, after: string) {
    && AllSpaces(before) && AllSpaces(after)
    && AllDigits(whole) && whole != [] && AllDigits(frac) && |frac| <= 6
    && s == before + (whole + if frac == [] then [] else "." + frac) + after
  }

  /** Whole units and a fraction, in millionths of a unit. */
  function Worth(whole: string, frac: string): nat
    requires AllDigits(whole) && AllDigits(frac) && |frac| <= 6
  {
    Number(whole) * 1_000_000 + Number(frac) * Power10(6 - |frac|)
  }

  lemma {:induction false} TrimStartDrops(before: string, rest: string)
    requires AllSpaces(before) && (rest != [] ==> !IsSpace(rest[0]))
    ensures TrimStart(before + rest) == rest
  {
    if before == [] {
      assert before + rest == rest;
    } else {
      assert (before + rest)[1..] == before[1..] + rest;
      assert IsSpace(before[0]);
      TrimStartDrops(before[1..], rest);
    }
  }

  lemma {:induction false} TrimEndDrops(rest: string, after: string)
    requires AllSpaces(after) && (rest != [] ==> !IsSpace(rest[|rest| - 1]))
    ensures TrimEnd(rest + after) == rest
  {
    var s := rest + after;
    if after == [] {
      assert s == rest;
    } else {
      assert s[..|s| - 1] == rest + after[..|after| - 1];
      assert s[|s| - 1] == after[|after| - 1] && IsSpace(after[|after| - 1]);
      TrimEndDrops(rest, after[..|after| - 1]);
    }
  }

  lemma {:induction false} TrimStartIs(s: string) returns (before: string)
    ensures AllSpaces(before) && s == before + TrimStart(s)
  {
    if s != [] && IsSpace(s[0]) {
      var b := TrimStartIs(s[1..]);
      before := [s[0]] + b;
      assert s == [s[0]] + s[1..];
    } else {
      before := [];
    }
  }

  lemma {:induction false} TrimEndIs(s: string) returns (after: string)
    ensures AllSpaces(after) && s == TrimEnd(s) + after
  {
    if s != [] && IsSpace(s[|s| - 1]) {
      var b := TrimEndIs(s[..|s| - 1]);
      after := b + [s[|s| - 1]];
      assert s == s[..|s| - 1] + [s[|s| - 1]];
    } else {
      after := [];
    }
  }

  lemma PlainEnds(whole: string, frac: string)
    requires AllDigits(whole) && whole != [] && AllDigits(frac)
    ensures var s := Plain(whole, frac); s != [] && !IsSpace(s[0]) && !IsSpace(s[|s| - 1])
  {
    assert Plain(whole, frac)[0] == whole[0];
    if frac == [] {
      assert Plain(whole, frac) == whole;
    } else {
      assert Plain(whole, frac)[|Plain(whole, frac)| - 1] == frac[|frac| - 1];
    }
  }

  lemma TrimReads(s: string, before: string, whole: string, frac: string, after: string)
    requires Reads(s, before, whole, frac, after)
    ensures Trim(s) == Plain(whole, frac)
  {
    var core := Plain(whole, frac);
    PlainEnds(whole, frac);
    hide IsSpace, TrimStart, TrimEnd;
    assert s == before + (core + after);
    assert (core + after)[0] == core[0];
    TrimStartDrops(before, core + after);
    TrimEndDrops(core, after);
  }

  lemma MatchIsPlain(s: string)
    requires Match(s).Some?
    ensures var (whole, frac) := Match(s).value; s == Plain(whole, frac)
  {
    hide Lead;
  }

  /** Exactly these texts are accepted, and read as the whole part in units and the fraction in millionths. */
  lemma ParseExactly(s: string, v: nat)
    ensures ParseAmount(s) == Some(v) <==>
      exists before, whole, frac, after :: Reads(s, before, whole, frac, after) && v == Worth(whole, frac)
  {
    if before, whole, frac, after :| Reads(s, before, whole, frac, after) && v == Worth(whole, frac) {
      TextParses(s, before, whole, frac, after);
    }
    if ParseAmount(s) == Some(v) { ParsedReads(s); }
  }

  lemma TextParses(s: string, before: string, whole: string, frac: string, after: string)
    requires Reads(s, before, whole, frac, after)
    ensures ParseAmount(s) == Some(Worth(whole, frac))
  {
    hide Trim, Match, Number, Power10, Plain;
    TrimReads(s, before, whole, frac, after);
    MatchesPlain(whole, frac);
    NumberShifted(frac, 6 - |frac|);
    SixPadded(frac);
  }

  lemma {:induction false} NumberShifted(s: string, k: nat)
    requires AllDigits(s)
    ensures AllDigits(s + Zeros(k)) && Number(s + Zeros(k)) == Number(s) * Power10(k)
  {
    var t := s + Zeros(k);
    if k == 0 {
      assert t == s;
    } else {
      assert t[..|t| - 1] == s + Zeros(k - 1) && t[|t| - 1] == '0';
      NumberShifted(s, k - 1);
      TimesTen(Number(s), Power10(k - 1));
    }
  }

  lemma TimesTen(a: nat, b: nat)
    ensures 10 * (a * b) == a * (10 * b)
  {
  }

  lemma ParsedReads(s: string)
    requires ParseAmount(s).Some?
    ensures exists before, whole, frac, after ::
      Reads(s, before, whole, frac, after) && ParseAmount(s).value == Worth(whole, frac)
  {
    var (whole, frac) := Match(Trim(s)).value;
    MatchIsPlain(Trim(s));
    hide Match, TrimStart, TrimEnd, Number, Power10, IsSpace;
    var before := TrimStartIs(s);
    var after := TrimEndIs(TrimStart(s));
    assert s == before + (whole + if frac == [] then [] else "." + frac) + after;
    assert Reads(s, before, whole, frac, after);
    TextParses(s, before, whole, frac, after);
  }

  /** Printing what was read from such a text gives its whole part without leading zeros, grouped, and its
      fraction without trailing zeros. */
  lemma FmtOfText(s: string, before: string, whole: string, frac: string, after: string)
    requires Reads(s, before, whole, frac, after)
    ensures ParseAmount(s).Some?
    ensures Fmt(ParseAmount(s).value) == Plain(Grouped(DropLeading(whole)), DropZeros(frac))
  {
    hide Trim, Match, Fmt, Grouped, DropLeading, DropZeros, Number;
    TrimReads(s, before, whole, frac, after);
    MatchesPlain(whole, frac);
    TextParses(s, before, whole, frac, after);
    FmtOfParse(s);
  }

  /** What the parser makes of plain text: digits, then possibly a point and up to six digits. */
  lemma ParsesPlain(whole: string, frac: string)
    requires AllDigits(whole) && whole != [] && AllDigits(frac) && |frac| <= 6
    ensures ParseAmount(Plain(whole, frac)) == Some(Number(whole) * 1_000_000 + Number(PadEnd(frac, 6)))
  {
    hide Match, Trim, Number, PadEnd, Plain;
    MatchesPlain(whole, frac);
  }

  // ---- The main results ----

  lemma FracOf(n: nat)
    ensures var frac := DropZeros(PadStart(Decimal(n % 1_000_000), 6));
      AllDigits(frac) && |frac| <= 6 && Number(PadEnd(frac, 6)) == n % 1_000_000
  {
    hide Decimal, DropZeros, PadStart, Number;
    SixDigits(n % 1_000_000);
    DropZerosPads(PadStart(Decimal(n % 1_000_000), 6), 6);
  }

  lemma PlainUngrouped(whole: string, frac: string)
    requires AllDigits(whole) && AllDigits(frac)
    ensures NoCommas(Plain(Grouped(whole), frac)) == Plain(whole, frac)
  {
    hide NoCommas, Grouped;
    Ungrouped(whole);
    if frac == [] {
      assert Plain(whole, frac) == whole && Plain(Grouped(whole), frac) == Grouped(whole);
    } else {
      var tail := "." + frac;
      NoCommasKeeps(tail);
      NoCommasAppend(Grouped(whole), tail);
    }
  }

  lemma FmtUngrouped(n: nat)
    ensures NoCommas(Fmt(n)) == Plain(Decimal(n / 1_000_000), DropZeros(PadStart(Decimal(n % 1_000_000), 6)))
  {
    hide Decimal, DropZeros, PadStart, PadEnd, Number, NoCommas, Grouped;
    FracOf(n);
    PlainUngrouped(Decimal(n / 1_000_000), DropZeros(PadStart(Decimal(n % 1_000_000), 6)));
  }

  /** Every amount, printed and read again without its commas, is the same amount. */
  lemma ParseOfFmt(n: nat)
    ensures ParseAmount(NoCommas(Fmt(n))) == Some(n)
  {
    hide Decimal, DropZeros, PadStart, PadEnd, Number, NoCommas, Fmt, ParseAmount, Plain;
    var frac := DropZeros(PadStart(Decimal(n % 1_000_000), 6));
    FmtUngrouped(n);
    FracOf(n);
    NumberOfDecimal(n / 1_000_000);
    ParsesPlain(Decimal(n / 1_000_000), frac);
  }

  /** With its commas it is read back exactly if there are none: below 1,000 TFL. From there on the parser
      refuses what the printer prints. */
  lemma ParseOfGroupedFmt(n: nat)
    ensures ParseAmount(Fmt(n)) == if n < 1_000_000_000 then Some(n) else None
  {
    hide Decimal, DropZeros, PadStart, PadEnd, Number, ParseAmount, Trim, Match;
    var whole := Decimal(n / 1_000_000);
    var frac := DropZeros(PadStart(Decimal(n % 1_000_000), 6));
    FracOf(n);
    DecimalLength(n / 1_000_000);
    assert Fmt(n) == Plain(Grouped(whole), frac);
    if n < 1_000_000_000 {
      assert Grouped(whole) == whole;
      NumberOfDecimal(n / 1_000_000);
      hide Plain;
      ParsesPlain(whole, frac);
    } else {
      hide Plain;
      GroupedRefused(whole, frac);
    }
  }

  lemma GroupedRefused(whole: string, frac: string)
    requires AllDigits(whole) && |whole| > 3 && AllDigits(frac)
    ensures ParseAmount(Plain(Grouped(whole), frac)) == None
  {
    var s := Plain(Grouped(whole), frac);
    hide Grouped, Trim, Lead;
    var i := GroupedComma(whole);
    assert s[..i] == Grouped(whole)[..i] && s[i] == ',';
    assert s[0] == s[..i][0];
    GroupedEnds(whole);
    assert s[|s| - 1] == if frac != [] then frac[|frac| - 1] else Grouped(whole)[|Grouped(whole)| - 1];
    TrimKeeps(s);
    LeadIs(s, i);
  }

  lemma GroupedEnds(s: string)
    requires AllDigits(s) && s != []
    ensures Grouped(s) != [] && IsDigit(Grouped(s)[|Grouped(s)| - 1])
  {
  }

  lemma SixPadded(frac: string)
    requires AllDigits(frac) && |frac| <= 6
    ensures var six := PadEnd(frac, 6);
      AllDigits(six) && |six| == 6 && six == frac + Zeros(6 - |frac|)
  {
  }

  lemma SplitAmount(n: nat, whole: nat, rest: nat)
    requires n == whole * 1_000_000 + rest && rest < 1_000_000
    ensures n / 1_000_000 == whole && n % 1_000_000 == rest
  {
  }

  lemma FmtIs(n: nat)
    ensures Fmt(n) == Plain(Grouped(Decimal(n / 1_000_000)), DropZeros(PadStart(Decimal(n % 1_000_000), 6)))
  {
  }

  lemma {:induction false} DropsShorten(s: string)
    ensures |DropLeading(s)| <= |s| && |DropZeros(s)| <= |s|
  {
    if |s| > 0 {
      if |s| > 1 && s[0] == '0' { DropsShortenLeft(s[1..]); }
      if s[|s| - 1] == '0' { DropsShorten(s[..|s| - 1]); }
    }
  }

  lemma {:induction false} DropsShortenLeft(s: string)
    ensures |DropLeading(s)| <= |s|
  {
    if |s| > 1 && s[0] == '0' { DropsShortenLeft(s[1..]); }
  }

  lemma {:induction false} TrimShortens(s: string)
    ensures |TrimStart(s)| <= |s| && |TrimEnd(s)| <= |s|
  {
    if s != [] {
      if IsSpace(s[0]) { TrimStartShortens(s[1..]); }
      if IsSpace(s[|s| - 1]) { TrimShortens(s[..|s| - 1]); }
    }
  }

  lemma {:induction false} TrimStartShortens(s: string)
    ensures |TrimStart(s)| <= |s|
  {
    if s != [] && IsSpace(s[0]) { TrimStartShortens(s[1..]); }
  }

  /** No accepted text for an amount is shorter than the printed amount without its commas. */
  lemma NothingShorter(t: string, n: nat)
    requires ParseAmount(t) == Some(n)
    ensures |NoCommas(Fmt(n))| <= |t|
  {
    var (whole, frac) := Match(Trim(t)).value;
    MatchLength(Trim(t));
    TrimShortens(t);
    TrimShortens(TrimStart(t));
    hide Match, Fmt, NoCommas, DropLeading, DropZeros, TrimStart, TrimEnd;
    FmtOfParse(t);
    DropsShorten(whole);
    DropsShorten(frac);
  }

  lemma MatchLength(s: string)
    requires Match(s).Some?
    ensures var (whole, frac) := Match(s).value; |whole| + (if frac != [] then 1 + |frac| else 0) == |s|
  {
    hide Lead;
  }

  /** Whatever text the parser accepts, printing its value gives the shortest way to write it, its whole part
      grouped. */
  lemma FmtOfParse(s: string)
    requires ParseAmount(s).Some?
    ensures var (whole, frac) := Match(Trim(s)).value;
      && Fmt(ParseAmount(s).value) == Plain(Grouped(DropLeading(whole)), DropZeros(frac))
      && NoCommas(Fmt(ParseAmount(s).value)) == Shortest(whole, frac)
  {
    var (whole, frac) := Match(Trim(s)).value;
    var six := PadEnd(frac, 6);
    var n := ParseAmount(s).value;
    FmtIs(n);
    hide Match, Trim, Fmt, Decimal, DropLeading, DropZeros, Number, NoCommas, AllDigits, Grouped;
    SixPadded(frac);
    NumberBound(six);
    SplitAmount(n, Number(whole), Number(six));
    DecimalOfNumber(six);
    DecimalIsShortest(whole);
    DropZerosAppend(frac, 6 - |frac|);
    FmtUngrouped(n);
  }
}
