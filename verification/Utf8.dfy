/** TextEncoder: UTF-16 text to UTF-8 bytes. It replaces a lone surrogate by U+FFFD, so it is
    injective only on well-formed text; canonical text is well formed because the quoting escapes
    lone surrogates. */
module Utf8 {
  import opened Text
  import opened Json
  import opened Hex

  function EncodeUnit(c: CodeUnit): (r: Bytes)
    ensures |r| > 0
  {
    if c < 0x80 then [c]
    else if c < 0x800 then [0xC0 + c / 64, 0x80 + c % 64]
    else if Leading(c) || Trailing(c) then [0xEF, 0xBF, 0xBD]
    else [0xE0 + c / 4096, 0x80 + c / 64 % 64, 0x80 + c % 64]
  }

  /** The scalar value of a surrogate pair, less 0x10000. */
  function PairValue(a: CodeUnit, b: CodeUnit): nat
    requires Leading(a) && Trailing(b)
  {
    (a - 0xD800) * 0x400 + (b - 0xDC00)
  }

  function EncodePair(a: CodeUnit, b: CodeUnit): (r: Bytes)
    requires Leading(a) && Trailing(b)
    ensures |r| == 4
  {
    var v := 0x10000 + PairValue(a, b);
    [0xF0 + v / 262144, 0x80 + v / 4096 % 64, 0x80 + v / 64 % 64, 0x80 + v % 64]
  }

  function Encode(s: Str): Bytes {
    if s == [] then []
    else if StartsWithPair(s) then EncodePair(s[0], s[1]) + Encode(s[2..])
    else EncodeUnit(s[0]) + Encode(s[1..])
  }

  /** No lone surrogate. */
  predicate WellFormed16(s: Str) {
    if s == [] then true
    else if StartsWithPair(s) then WellFormed16(s[2..])
    else !Leading(s[0]) && !Trailing(s[0]) && WellFormed16(s[1..])
  }

  // ---------------------------------------------------------- what the bytes say

  predicate Continues(b: Byte) { 0x80 <= b < 0xC0 }

  /** The code units of one scalar value, as a pair if it is beyond 16 bits. */
  function Units(v: nat): (r: Str)
    requires v < 0x110000
  {
    if v < 0x10000 then [v] else [0xD800 + (v - 0x10000) / 0x400, 0xDC00 + (v - 0x10000) % 0x400]
  }

  function SixMore(v: nat, b: Byte): nat
    requires Continues(b)
  {
    64 * v + (b - 0x80)
  }

  /** A reader of UTF-8: the first byte tells how many follow, and each of those adds six bits. */
  function Scalar(b: Bytes): Option<(nat, nat)> {
    if b == [] then None
    else if b[0] < 0x80 then Some((b[0], 1))
    else if 0xC0 <= b[0] < 0xE0 && |b| >= 2 && Continues(b[1]) then
      Some((SixMore(b[0] - 0xC0, b[1]), 2))
    else if 0xE0 <= b[0] < 0xF0 && |b| >= 3 && Continues(b[1]) && Continues(b[2]) then
      Some((SixMore(SixMore(b[0] - 0xE0, b[1]), b[2]), 3))
    else if 0xF0 <= b[0] < 0xF8 && |b| >= 4 && Continues(b[1]) && Continues(b[2]) && Continues(b[3]) then
      Some((SixMore(SixMore(SixMore(b[0] - 0xF0, b[1]), b[2]), b[3]), 4))
    else None
  }

  function Decode(b: Bytes): Option<Str> {
    if b == [] then Some([])
    else match Scalar(b)
      case None => None
      case Some((v, n)) =>
        if v >= 0x110000 || n > |b| || n == 0 then None
        else match Decode(b[n..])
          case None => None
          case Some(rest) => Some(Units(v) + rest)
  }

  lemma DecodeFirst(first: Bytes, v: nat, tail: Bytes)
    requires first != [] && v < 0x110000 && Scalar(first + tail) == Some((v, |first|))
    ensures Decode(first + tail) ==
      match Decode(tail)
      case None => None
      case Some(rest) => Some(Units(v) + rest)
  {
    Parts(first, tail);
  }

  lemma ScalarUnit(c: CodeUnit, tail: Bytes)
    requires !Leading(c) && !Trailing(c)
    ensures Scalar(EncodeUnit(c) + tail) == Some((c, |EncodeUnit(c)|))
  {
    var r := EncodeUnit(c);
    assert forall i :: 0 <= i < |r| ==> (r + tail)[i] == r[i];
    if c >= 0x800 { assert c == c / 4096 * 4096 + c / 64 % 64 * 64 + c % 64 by { Sextets(c); } }
  }

  lemma ScalarPair(a: CodeUnit, b: CodeUnit, tail: Bytes)
    requires Leading(a) && Trailing(b)
    ensures Scalar(EncodePair(a, b) + tail) == Some((0x10000 + PairValue(a, b), 4))
    ensures 0x10000 + PairValue(a, b) < 0x110000 && Units(0x10000 + PairValue(a, b)) == [a, b]
  {
    var r, v := EncodePair(a, b), 0x10000 + PairValue(a, b);
    assert forall i :: 0 <= i < |r| ==> (r + tail)[i] == r[i];
    assert v == v / 262144 * 262144 + v / 4096 % 64 * 4096 + v / 64 % 64 * 64 + v % 64 by { FourSextets(v); }
    assert (v - 0x10000) / 0x400 == a - 0xD800 && (v - 0x10000) % 0x400 == b - 0xDC00;
  }

  lemma FourSextets(v: nat)
    ensures v == v / 262144 * 262144 + v / 4096 % 64 * 4096 + v / 64 % 64 * 64 + v % 64
  {
    assert v / 4096 == v / 64 / 64 && v / 262144 == v / 4096 / 64;
    assert v == 64 * (v / 64) + v % 64;
    assert v / 64 == 64 * (v / 4096) + v / 64 % 64;
    assert v / 4096 == 64 * (v / 262144) + v / 4096 % 64;
  }

  /** The bytes of well-formed text read back as that text. */
  lemma {:induction false} DecodeEncode(s: Str)
    requires WellFormed16(s)
    ensures Decode(Encode(s)) == Some(s)
    decreases |s|
  {
    if s != [] {
      if StartsWithPair(s) {
        DecodeEncode(s[2..]);
        ScalarPair(s[0], s[1], Encode(s[2..]));
        DecodeFirst(EncodePair(s[0], s[1]), 0x10000 + PairValue(s[0], s[1]), Encode(s[2..]));
        assert s == [s[0], s[1]] + s[2..];
      } else {
        DecodeEncode(s[1..]);
        ScalarUnit(s[0], Encode(s[1..]));
        DecodeFirst(EncodeUnit(s[0]), s[0], Encode(s[1..]));
        assert s == [s[0]] + s[1..];
      }
    }
  }

  // ------------------------------------------------- canonical text is well formed

  predicate Plain(s: Str) { forall i :: 0 <= i < |s| ==> s[i] < 0xD800 }

  lemma {:induction false} PlainWellFormed(s: Str)
    requires Plain(s)
    ensures WellFormed16(s)
  {
    if s != [] { PlainWellFormed(s[1..]); }
  }

  lemma {:induction false} WellFormedConcat(a: Str, b: Str)
    requires WellFormed16(a) && WellFormed16(b)
    ensures WellFormed16(a + b)
  {
    if a == [] {
      Parts(a, b);
    } else if StartsWithPair(a) {
      WellFormedConcat(a[2..], b);
      assert (a + b)[2..] == a[2..] + b;
    } else {
      WellFormedConcat(a[1..], b);
      Parts(a, b);
    }
  }

  lemma QuoteUnitWellFormed(c: CodeUnit)
    ensures WellFormed16(QuoteUnit(c))
  {
    if QuoteUnit(c) == [c] && !Leading(c) && !Trailing(c) {
      assert [c][1..] == [];
    } else {
      PlainWellFormed(QuoteUnit(c));
    }
  }

  lemma {:induction false} QuoteBodyWellFormed(s: Str)
    ensures WellFormed16(QuoteBody(s))
  {
    if s == [] {
    } else if StartsWithPair(s) {
      QuoteBodyWellFormed(s[2..]);
      assert s[..2][2..] == [];
      WellFormedConcat(s[..2], QuoteBody(s[2..]));
    } else {
      QuoteBodyWellFormed(s[1..]);
      QuoteUnitWellFormed(s[0]);
      WellFormedConcat(QuoteUnit(s[0]), QuoteBody(s[1..]));
    }
  }

  lemma Bracketed(open: Str, s: Str, close: Str)
    requires Plain(open) && WellFormed16(s) && Plain(close)
    ensures WellFormed16(open + s + close)
  {
    PlainWellFormed(open);
    PlainWellFormed(close);
    WellFormedConcat(open, s);
    WellFormedConcat(open + s, close);
  }

  lemma QuoteWellFormed(s: Str)
    ensures WellFormed16(Quote(s))
  {
    QuoteBodyWellFormed(s);
    Bracketed([QUOTE], QuoteBody(s), [QUOTE]);
  }

  lemma {:induction false} EmitWellFormed(v: Json)
    ensures WellFormed16(Emit(v))
    decreases v, 1
  {
    match v
    case Text(s) => QuoteWellFormed(s);
    case Arr(items) =>
      EmitItemsWellFormed(items);
      Bracketed(['[' as int], EmitItems(items), [']' as int]);
    case Obj(ms) =>
      EmitMembersWellFormed(ms);
      Bracketed(['{' as int], EmitMembers(ms), ['}' as int]);
    case Num(n) =>
      DecPlain(if n < 0 then -n else n);
      PlainWellFormed(EmitNum(n));
    case _ => PlainWellFormed(Emit(v));
  }

  lemma DecPlain(n: nat)
    ensures Plain(Dec(n))
  {
    assert forall i :: 0 <= i < |Dec(n)| ==> IsDigit(Dec(n)[i]);
  }

  lemma {:induction false} EmitItemsWellFormed(items: seq<Json>)
    ensures WellFormed16(EmitItems(items))
    decreases items, 0
  {
    if items != [] {
      EmitWellFormed(items[0]);
      if |items| > 1 {
        EmitItemsWellFormed(items[1..]);
        Separated(Emit(items[0]), EmitItems(items[1..]), ',' as int);
      } else {
        Parts(Emit(items[0]), []);
      }
    }
  }

  lemma Separated(a: Str, b: Str, sep: CodeUnit)
    requires WellFormed16(a) && WellFormed16(b) && sep < 0xD800
    ensures WellFormed16(a + ([sep] + b)) && WellFormed16(a + [sep] + b)
  {
    PlainWellFormed([sep]);
    WellFormedConcat([sep], b);
    WellFormedConcat(a, [sep] + b);
    Assoc(a, [sep], b);
  }

  lemma {:induction false} EmitMembersWellFormed(ms: seq<Member>)
    ensures WellFormed16(EmitMembers(ms))
    decreases ms, 0
  {
    if ms != [] {
      QuoteWellFormed(ms[0].key);
      EmitWellFormed(ms[0].value);
      Separated(Quote(ms[0].key), Emit(ms[0].value), ':' as int);
      if |ms| > 1 {
        EmitMembersWellFormed(ms[1..]);
        Separated(EmitMember(ms[0]), EmitMembers(ms[1..]), ',' as int);
      } else {
        Parts(EmitMember(ms[0]), []);
      }
    }
  }

  // -------------------------------------------------------------- injectivity

  /** Length of the sequence a first byte announces. */
  function Announced(b: Byte): nat {
    if b < 0x80 then 1 else if b < 0xE0 then 2 else if b < 0xF0 then 3 else 4
  }

  lemma UnitAnnounced(c: CodeUnit)
    ensures Announced(EncodeUnit(c)[0]) == |EncodeUnit(c)|
  {
  }

  lemma PairAnnounced(a: CodeUnit, b: CodeUnit)
    requires Leading(a) && Trailing(b)
    ensures Announced(EncodePair(a, b)[0]) == 4
  {
  }

  lemma ThreeSextets(c: nat)
    ensures c == 4096 * (c / 4096) + 64 * (c / 64 % 64) + c % 64
  {
    var x := c / 64;
    assert c == 64 * x + c % 64;
    assert c / 4096 == x / 64 && x == 64 * (x / 64) + x % 64;
  }

  lemma UnitInjective(c: CodeUnit, d: CodeUnit)
    requires !Leading(c) && !Trailing(c) && !Leading(d) && !Trailing(d) && EncodeUnit(c) == EncodeUnit(d)
    ensures c == d
  {
    var e, f := EncodeUnit(c), EncodeUnit(d);
    UnitAnnounced(c);
    UnitAnnounced(d);
    assert |e| == |f| && e[0] == f[0];
    if |e| == 2 {
      assert e[1] == f[1];
    } else if |e| == 3 {
      assert e[1] == f[1] && e[2] == f[2];
      ThreeSextets(c);
      ThreeSextets(d);
    }
  }

  lemma Sextets(v: nat)
    ensures v == 262144 * (v / 262144) + 4096 * (v / 4096 % 64) + 64 * (v / 64 % 64) + v % 64
  {
    var x, y := v / 64, v / 4096;
    assert v == 64 * x + v % 64;
    assert y == x / 64 && x == 64 * y + x % 64;
    assert v / 262144 == y / 64 && y == 64 * (y / 64) + y % 64;
  }

  lemma PairValueInjective(a: CodeUnit, b: CodeUnit, c: CodeUnit, d: CodeUnit)
    requires Leading(a) && Trailing(b) && Leading(c) && Trailing(d) && PairValue(a, b) == PairValue(c, d)
    ensures a == c && b == d
  {
  }

  lemma PairInjective(a: CodeUnit, b: CodeUnit, c: CodeUnit, d: CodeUnit)
    requires Leading(a) && Trailing(b) && Leading(c) && Trailing(d) && EncodePair(a, b) == EncodePair(c, d)
    ensures a == c && b == d
  {
    var v, w := 0x10000 + PairValue(a, b), 0x10000 + PairValue(c, d);
    SextetsInjective(v, w, EncodePair(a, b), EncodePair(c, d));
    PairValueInjective(a, b, c, d);
  }

  lemma SextetsInjective(v: nat, w: nat, e: Bytes, f: Bytes)
    requires v < 0x110000 && w < 0x110000 && e == f
    requires e == [0xF0 + v / 262144, 0x80 + v / 4096 % 64, 0x80 + v / 64 % 64, 0x80 + v % 64]
    requires f == [0xF0 + w / 262144, 0x80 + w / 4096 % 64, 0x80 + w / 64 % 64, 0x80 + w % 64]
    ensures v == w
  {
    Sextets(v);
    Sextets(w);
    assert e[0] == f[0] && e[1] == f[1] && e[2] == f[2] && e[3] == f[3];
  }

  /** The first chunk of an encoding and the rest of it. */
  function Chunk(s: Str): (r: (Bytes, Str))
    requires s != [] && WellFormed16(s)
    ensures Encode(s) == r.0 + Encode(r.1) && WellFormed16(r.1) && |r.1| < |s|
    ensures |r.0| > 0 && Announced(r.0[0]) == |r.0|
  {
    if StartsWithPair(s) then
      PairAnnounced(s[0], s[1]);
      (EncodePair(s[0], s[1]), s[2..])
    else
      UnitAnnounced(s[0]);
      (EncodeUnit(s[0]), s[1..])
  }

  lemma ChunkInjective(s: Str, t: Str)
    requires s != [] && t != [] && WellFormed16(s) && WellFormed16(t)
    requires Chunk(s) == Chunk(t)
    ensures s == t
  {
    if StartsWithPair(s) && StartsWithPair(t) {
      PairInjective(s[0], s[1], t[0], t[1]);
      assert s == [s[0], s[1]] + s[2..] && t == [t[0], t[1]] + t[2..];
    } else if !StartsWithPair(s) && !StartsWithPair(t) {
      UnitInjective(s[0], t[0]);
      assert s == [s[0]] + s[1..] && t == [t[0]] + t[1..];
    }
  }

  /** Equal bytes come from equal text. */
  lemma {:induction false} EncodeInjective(s: Str, t: Str)
    requires WellFormed16(s) && WellFormed16(t) && Encode(s) == Encode(t)
    ensures s == t
  {
    if s != [] && t != [] {
      var (a, s') := Chunk(s);
      var (b, t') := Chunk(t);
      Parts(a, Encode(s'));
      Parts(b, Encode(t'));
      assert a == b;
      EncodeInjective(s', t');
      ChunkInjective(s, t);
    } else if s != [] {
      var _ := Chunk(s);
    } else if t != [] {
      var _ := Chunk(t);
    }
  }

  /** On ill-formed text it is not: a lone surrogate and the replacement character collide. */
  lemma EncodeCollides()
    ensures Encode([0xD800]) == Encode([0xFFFD]) == [0xEF, 0xBF, 0xBD]
  {
    assert Encode([]) == [];
    assert EncodeUnit(0xFFFD) == [0xEF, 0xBF, 0xBD];
    assert [0xD800][1..] == [] && [0xFFFD][1..] == [];
  }
}
