/** JSON values, their text in a given member order, and a parser of that text. */
module Json {
  import opened Text

  /** The integers a JSON number of a receipt can carry exactly. */
  type SafeInt = n: int | -0x1F_FFFF_FFFF_FFFF <= n <= 0x1F_FFFF_FFFF_FFFF

  /** `Foreign` stands for everything JavaScript can hold and JSON cannot: undefined, bigint,
      functions, symbols, non-finite numbers and objects with a prototype of their own.
      An object lists its members in insertion order. */
  datatype Json =
    | Null
    | Bool(b: bool)
    | Num(n: SafeInt)
    | Text(s: Str)
    | Arr(items: seq<Json>)
    | Obj(members: seq<Member>)
    | Foreign

  datatype Member = Member(key: Str, value: Json)

  datatype Option<+T> = None | Some(value: T)

  function Keys(ms: seq<Member>): (r: seq<Str>)
    ensures |r| == |ms| && forall i :: 0 <= i < |ms| ==> r[i] == ms[i].key
  {
    seq(|ms|, i requires 0 <= i < |ms| => ms[i].key)
  }

  ghost predicate UniqueKeys(ms: seq<Member>) {
    forall i, j :: 0 <= i < j < |ms| ==> ms[i].key != ms[j].key
  }

  /** No `Foreign` part anywhere. */
  predicate Pure(v: Json) {
    match v
    case Foreign => false
    case Arr(items) => forall i :: 0 <= i < |items| ==> Pure(items[i])
    case Obj(ms) => forall i :: 0 <= i < |ms| ==> Pure(ms[i].value)
    case _ => true
  }

  /** An object has one value per key. */
  ghost predicate WellFormed(v: Json) {
    match v
    case Arr(items) => forall i :: 0 <= i < |items| ==> WellFormed(items[i])
    case Obj(ms) => UniqueKeys(ms) && forall i :: 0 <= i < |ms| ==> WellFormed(ms[i].value)
    case _ => true
  }

  // -------------------------------------------------------------- strings

  const QUOTE: CodeUnit := 34
  const BACKSLASH: CodeUnit := 92

  predicate Leading(c: CodeUnit) { 0xD800 <= c <= 0xDBFF }

  predicate Trailing(c: CodeUnit) { 0xDC00 <= c <= 0xDFFF }

  function HexDigit(d: int): CodeUnit
    requires 0 <= d < 16
  {
    if d < 10 then 48 + d else 87 + d
  }

  /** Value of a hexadecimal digit of either case. */
  function HexValue(c: CodeUnit): (r: Option<int>)
    ensures r.Some? ==> 0 <= r.value < 16
  {
    if 48 <= c <= 57 then Some(c - 48)
    else if 97 <= c <= 102 then Some(c - 87)
    else if 65 <= c <= 70 then Some(c - 55)
    else None
  }

  function UnicodeEscape(c: CodeUnit): Str {
    [BACKSLASH, 'u' as int, HexDigit(c / 4096), HexDigit(c / 256 % 16), HexDigit(c / 16 % 16), HexDigit(c % 16)]
  }

  /** JSON.stringify of one code unit that is not half of a surrogate pair. */
  function QuoteUnit(c: CodeUnit): (r: Str)
    ensures |r| > 0
  {
    if c == 8 then [BACKSLASH, 'b' as int]
    else if c == 9 then [BACKSLASH, 't' as int]
    else if c == 10 then [BACKSLASH, 'n' as int]
    else if c == 12 then [BACKSLASH, 'f' as int]
    else if c == 13 then [BACKSLASH, 'r' as int]
    else if c == QUOTE || c == BACKSLASH then [BACKSLASH, c]
    else if c < 32 || Leading(c) || Trailing(c) then UnicodeEscape(c)
    else [c]
  }

  predicate StartsWithPair(s: Str) {
    |s| >= 2 && Leading(s[0]) && Trailing(s[1])
  }

  /** The body JSON.stringify gives a string: shortest escapes, surrogate pairs raw, lone
      surrogates escaped. */
  function QuoteBody(s: Str): Str {
    if s == [] then []
    else if StartsWithPair(s) then s[..2] + QuoteBody(s[2..])
    else QuoteUnit(s[0]) + QuoteBody(s[1..])
  }

  function Quote(s: Str): Str {
    [QUOTE] + QuoteBody(s) + [QUOTE]
  }

  /** Reads one unit of a quoted body. */
  function UnquoteUnit(t: Str): (r: Option<(CodeUnit, Str)>)
    ensures r.Some? ==> |r.value.1| < |t|
  {
    if t == [] || t[0] == QUOTE || t[0] < 32 then None
    else if t[0] != BACKSLASH then Some((t[0], t[1..]))
    else if |t| < 2 then None
    else if t[1] == 'b' as int then Some((8, t[2..]))
    else if t[1] == 't' as int then Some((9, t[2..]))
    else if t[1] == 'n' as int then Some((10, t[2..]))
    else if t[1] == 'f' as int then Some((12, t[2..]))
    else if t[1] == 'r' as int then Some((13, t[2..]))
    else if t[1] == QUOTE || t[1] == BACKSLASH || t[1] == '/' as int then Some((t[1], t[2..]))
    else if t[1] == 'u' as int && |t| >= 6 then
      match (HexValue(t[2]), HexValue(t[3]), HexValue(t[4]), HexValue(t[5]))
      case (Some(a), Some(b), Some(c), Some(d)) => Some((4096 * a + 256 * b + 16 * c + d, t[6..]))
      case _ => None
    else None
  }

  /** Reads a quoted body up to its closing quote. */
  function UnquoteBody(t: Str): (r: Option<(Str, Str)>)
    ensures r.Some? ==> |r.value.1| < |t|
  {
    if t != [] && t[0] == QUOTE then Some(([], t[1..]))
    else
      match UnquoteUnit(t)
      case None => None
      case Some((c, rest)) =>
        match UnquoteBody(rest)
        case None => None
        case Some((s, after)) => Some(([c] + s, after))
  }

  lemma HexNibbles(c: CodeUnit)
    ensures c / 4096 < 16
    ensures c == 4096 * (c / 4096) + 256 * (c / 256 % 16) + 16 * (c / 16 % 16) + c % 16
  {
    assert c / 256 == c / 16 / 16 && c / 4096 == c / 256 / 16;
    assert c == 16 * (c / 16) + c % 16;
    assert c / 16 == 16 * (c / 256) + c / 16 % 16;
    assert c / 256 == 16 * (c / 4096) + c / 256 % 16;
  }

  lemma HexDigitRead(d: int)
    requires 0 <= d < 16
    ensures HexValue(HexDigit(d)) == Some(d)
  {
  }

  /** No shorter text reads as this unit, lone surrogates aside, and escapes are in lower case. */
  lemma QuoteShortest(c: CodeUnit, t: Str)
    requires !Leading(c) && !Trailing(c) && UnquoteUnit(t) == Some((c, []))
    ensures |QuoteUnit(c)| <= |t|
    ensures |QuoteUnit(c)| == 6 ==> Lower(QuoteUnit(c)) == QuoteUnit(c)
  {
    if |QuoteUnit(c)| == 6 {
      forall i | 0 <= i < 6 ensures LowerUnit(QuoteUnit(c)[i]) == QuoteUnit(c)[i] {
      }
    }
  }

  lemma UnquoteFour(t: Str, a: int, b: int, c: int, d: int, tail: Str)
    requires 0 <= a < 16 && 0 <= b < 16 && 0 <= c < 16 && 0 <= d < 16
    requires t == [BACKSLASH, 'u' as int, HexDigit(a), HexDigit(b), HexDigit(c), HexDigit(d)] + tail
    ensures UnquoteUnit(t) == Some((4096 * a + 256 * b + 16 * c + d, tail))
  {
    HexDigitRead(a);
    HexDigitRead(b);
    HexDigitRead(c);
    HexDigitRead(d);
    Parts([BACKSLASH, 'u' as int, HexDigit(a), HexDigit(b), HexDigit(c), HexDigit(d)], tail);
    assert t[6..] == tail;
  }

  lemma UnquoteEscape(c: CodeUnit, tail: Str)
    ensures UnquoteUnit(UnicodeEscape(c) + tail) == Some((c, tail))
  {
    HexNibbles(c);
    UnquoteFour(UnicodeEscape(c) + tail, c / 4096, c / 256 % 16, c / 16 % 16, c % 16, tail);
  }

  lemma UnquoteQuotedUnit(c: CodeUnit, tail: Str)
    ensures UnquoteUnit(QuoteUnit(c) + tail) == Some((c, tail))
    ensures QuoteUnit(c)[0] != QUOTE
  {
    if QuoteUnit(c) == UnicodeEscape(c) {
      UnquoteEscape(c, tail);
    } else {
      Parts(QuoteUnit(c), tail);
    }
  }

  lemma UnquoteNext(t: Str, c: CodeUnit, rest: Str, s: Str, tail: Str)
    requires t != [] && t[0] != QUOTE && UnquoteUnit(t) == Some((c, rest))
    requires UnquoteBody(rest) == Some((s, tail))
    ensures UnquoteBody(t) == Some(([c] + s, tail))
  {
  }

  lemma UnquotePairThen(a: CodeUnit, b: CodeUnit, rest: Str, s: Str, tail: Str)
    requires Leading(a) && Trailing(b) && UnquoteBody(rest) == Some((s, tail))
    ensures UnquoteBody([a, b] + rest) == Some(([a, b] + s, tail))
  {
    var t: Str := [b] + rest;
    Parts([b], rest);
    UnquoteNext(t, b, rest, s, tail);
    Parts([a], t);
    UnquoteNext([a] + t, a, t, [b] + s, tail);
    Assoc([a], [b], rest);
    Assoc([a], [b], s);
    assert [a] + [b] == [a, b];
  }

  lemma {:induction false} UnquoteQuoted(s: Str, tail: Str)
    ensures UnquoteBody(QuoteBody(s) + ([QUOTE] + tail)) == Some((s, tail))
  {
    var close: Str := [QUOTE] + tail;
    if s == [] {
      Parts(QuoteBody(s), close);
      Parts([QUOTE], tail);
    } else if StartsWithPair(s) {
      UnquoteQuoted(s[2..], tail);
      UnquotePairThen(s[0], s[1], QuoteBody(s[2..]) + close, s[2..], tail);
      Assoc(s[..2], QuoteBody(s[2..]), close);
      assert s[..2] == [s[0], s[1]];
      assert [s[0], s[1]] + s[2..] == s;
    } else {
      var rest := QuoteBody(s[1..]) + close;
      UnquoteQuoted(s[1..], tail);
      UnquoteQuotedUnit(s[0], rest);
      Parts(QuoteUnit(s[0]), rest);
      UnquoteNext(QuoteUnit(s[0]) + rest, s[0], rest, s[1..], tail);
      Assoc(QuoteUnit(s[0]), QuoteBody(s[1..]), close);
      assert [s[0]] + s[1..] == s;
    }
  }

  /** A quoted string followed by anything is read back, and what follows it is left. */
  lemma UnquoteQuote(s: Str, tail: Str)
    ensures var t := Quote(s) + tail;
      t[0] == QUOTE && UnquoteBody(t[1..]) == Some((s, tail))
  {
    UnquoteQuoted(s, tail);
    assert (Quote(s) + tail)[1..] == QuoteBody(s) + ([QUOTE] + tail);
  }

  // ----------------------------------------------------------------- text

  function Lit(s: Ascii): Str { S(s) }

  function EmitNum(n: int): Str {
    if n < 0 then ['-' as int] + Dec(-n) else Dec(n)
  }

  /** The text of a value with its members in the order they are listed. */
  function Emit(v: Json): Str
    decreases v, 1
  {
    match v
    case Null => Lit("null")
    case Bool(b) => if b then Lit("true") else Lit("false")
    case Num(n) => EmitNum(n)
    case Text(s) => Quote(s)
    case Arr(items) => ['[' as int] + EmitItems(items) + [']' as int]
    case Obj(ms) => ['{' as int] + EmitMembers(ms) + ['}' as int]
    case Foreign => []
  }

  function EmitItems(items: seq<Json>): Str
    decreases items, 0
  {
    if items == [] then []
    else Emit(items[0]) + (if |items| == 1 then [] else [',' as int] + EmitItems(items[1..]))
  }

  function EmitMember(m: Member): Str
    decreases m, 2
  {
    Quote(m.key) + [':' as int] + Emit(m.value)
  }

  function EmitMembers(ms: seq<Member>): Str
    decreases ms, 0
  {
    if ms == [] then []
    else EmitMember(ms[0]) + (if |ms| == 1 then [] else [',' as int] + EmitMembers(ms[1..]))
  }

  // --------------------------------------------------------------- parser

  function ParseNum(t: Str): (r: Option<(Json, Str)>)
    ensures r.Some? ==> |r.value.1| < |t|
  {
    var digits := if t != [] && t[0] == '-' as int then t[1..] else t;
    var (n, rest) := ReadDigits(digits, 0);
    var signed := (if |digits| < |t| then -1 else 1) * n;
    if |rest| < |digits| && -0x1F_FFFF_FFFF_FFFF <= signed <= 0x1F_FFFF_FFFF_FFFF
    then Some((Num(signed), rest)) else None
  }

  /** A recursive-descent parser for the texts `Emit` produces. */
  function Parse(t: Str): (r: Option<(Json, Str)>)
    ensures r.Some? ==> |r.value.1| < |t|
    decreases |t|, 2
  {
    if t == [] then None
    else if t[0] == 'n' as int && Lit("null") <= t then Some((Null, t[4..]))
    else if t[0] == 't' as int && Lit("true") <= t then Some((Bool(true), t[4..]))
    else if t[0] == 'f' as int && Lit("false") <= t then Some((Bool(false), t[5..]))
    else if t[0] == QUOTE then
      match UnquoteBody(t[1..])
      case Some((s, rest)) => Some((Text(s), rest))
      case None => None
    else if t[0] == '[' as int then
      if |t| >= 2 && t[1] == ']' as int then Some((Arr([]), t[2..]))
      else
        match ParseItems(t[1..])
        case Some((items, rest)) => Some((Arr(items), rest))
        case None => None
    else if t[0] == '{' as int then
      if |t| >= 2 && t[1] == '}' as int then Some((Obj([]), t[2..]))
      else
        match ParseMembers(t[1..])
        case Some((ms, rest)) => Some((Obj(ms), rest))
        case None => None
    else ParseNum(t)
  }

  function ParseItems(t: Str): (r: Option<(seq<Json>, Str)>)
    ensures r.Some? ==> |r.value.1| < |t|
    decreases |t|, 3
  {
    match Parse(t)
    case None => None
    case Some((v, rest)) =>
      if rest == [] then None
      else if rest[0] == ']' as int then Some(([v], rest[1..]))
      else if rest[0] != ',' as int then None
      else
        match ParseItems(rest[1..])
        case None => None
        case Some((items, after)) => Some(([v] + items, after))
  }

  function ParseMember(t: Str): (r: Option<(Member, Str)>)
    ensures r.Some? ==> |r.value.1| < |t|
    decreases |t|, 3
  {
    if t == [] || t[0] != QUOTE then None
    else
      match UnquoteBody(t[1..])
      case None => None
      case Some((key, rest)) =>
        if rest == [] || rest[0] != ':' as int then None
        else
          match Parse(rest[1..])
          case None => None
          case Some((v, after)) => Some((Member(key, v), after))
  }

  function ParseMembers(t: Str): (r: Option<(seq<Member>, Str)>)
    ensures r.Some? ==> |r.value.1| < |t|
    decreases |t|, 4
  {
    match ParseMember(t)
    case None => None
    case Some((m, rest)) =>
      if rest == [] then None
      else if rest[0] == '}' as int then Some(([m], rest[1..]))
      else if rest[0] != ',' as int then None
      else
        match ParseMembers(rest[1..])
        case None => None
        case Some((ms, after)) => Some(([m] + ms, after))
  }

  // ----------------------------------------------------------- round trip

  /** What may follow a value without being read as part of it. */
  predicate Ends(t: Str) {
    t == [] || !IsDigit(t[0])
  }

  lemma ParseEmittedNum(n: SafeInt, tail: Str)
    requires Ends(tail)
    ensures ParseNum(EmitNum(n) + tail) == Some((Num(n), tail))
  {
    var d: nat := if n < 0 then -n else n;
    ReadDec(d, tail);
    Parts(Dec(d), tail);
    if n < 0 {
      Assoc(['-' as int], Dec(d), tail);
      Parts(['-' as int], Dec(d) + tail);
    }
  }

  lemma ParseNumber(n: SafeInt, tail: Str)
    requires Ends(tail)
    ensures Parse(EmitNum(n) + tail) == Some((Num(n), tail))
  {
    ParseEmittedNum(n, tail);
    Parts(EmitNum(n), tail);
    assert EmitNum(n)[0] == '-' as int || IsDigit(EmitNum(n)[0]);
  }

  lemma ParseLiteral(v: Json, tail: Str)
    requires v.Null? || v.Bool?
    ensures Parse(Emit(v) + tail) == Some((v, tail))
  {
    var t := Emit(v) + tail;
    assert t[|Emit(v)|..] == tail;
    assert Emit(v) <= t;
  }

  /** The parser reads back exactly the value that was written, whatever follows it. */
  lemma {:induction false} ParseEmit(v: Json, tail: Str)
    requires Pure(v) && Ends(tail)
    ensures Parse(Emit(v) + tail) == Some((v, tail))
    decreases v, 1
  {
    match v
    case Num(n) => ParseNumber(n, tail);
    case Text(s) => UnquoteQuote(s, tail);
    case Arr(items) => ParseEmitArr(items, tail);
    case Obj(ms) => ParseEmitObj(ms, tail);
    case _ => ParseLiteral(v, tail);
  }

  lemma {:induction false} ParseEmitArr(items: seq<Json>, tail: Str)
    requires forall i :: 0 <= i < |items| ==> Pure(items[i])
    ensures Parse(Emit(Arr(items)) + tail) == Some((Arr(items), tail))
    decreases items, 1
  {
    var t := Emit(Arr(items)) + tail;
    assert t[1..] == EmitItems(items) + ([']' as int] + tail);
    if items != [] {
      ParseEmitItems(items, tail);
      EmitStart(items[0]);
      assert t[1] == Emit(items[0])[0];
    } else {
      assert t[2..] == tail;
    }
  }

  lemma {:induction false} ParseEmitObj(ms: seq<Member>, tail: Str)
    requires forall i :: 0 <= i < |ms| ==> Pure(ms[i].value)
    ensures Parse(Emit(Obj(ms)) + tail) == Some((Obj(ms), tail))
    decreases ms, 1
  {
    var t := Emit(Obj(ms)) + tail;
    assert t[1..] == EmitMembers(ms) + (['}' as int] + tail);
    if ms != [] {
      ParseEmitMembers(ms, tail);
      assert t[1] == Quote(ms[0].key)[0];
    } else {
      assert t[2..] == tail;
    }
  }

  lemma EmitStart(v: Json)
    requires Pure(v)
    ensures Emit(v) != [] && Emit(v)[0] != ']' as int
  {
    if v.Num? && v.n >= 0 { assert IsDigit(Dec(v.n)[0]); }
  }

  lemma ParseItemsLast(t: Str, v: Json, tail: Str)
    requires Parse(t) == Some((v, [']' as int] + tail))
    ensures ParseItems(t) == Some(([v], tail))
  {
    assert ([']' as int] + tail)[1..] == tail;
  }

  lemma ParseItemsMore(t: Str, v: Json, more: Str, items: seq<Json>, tail: Str)
    requires Parse(t) == Some((v, [',' as int] + more)) && ParseItems(more) == Some((items, tail))
    ensures ParseItems(t) == Some(([v] + items, tail))
  {
    assert ([',' as int] + more)[1..] == more;
  }

  lemma EmitItemsSplit(items: seq<Json>, close: Str)
    requires items != []
    ensures EmitItems(items) + close ==
      Emit(items[0]) + (if |items| == 1 then close else [',' as int] + (EmitItems(items[1..]) + close))
  {
    var first := Emit(items[0]);
    if |items| > 1 {
      var more := EmitItems(items[1..]);
      Assoc(first, [',' as int] + more, close);
      Assoc([',' as int], more, close);
    } else {
      Parts(first, []);
    }
  }

  lemma ParseEmitLastItem(v: Json, tail: Str)
    requires Pure(v)
    ensures ParseItems(Emit(v) + ([']' as int] + tail)) == Some(([v], tail))
    decreases v, 2
  {
    ParseEmit(v, [']' as int] + tail);
    ParseItemsLast(Emit(v) + ([']' as int] + tail), v, tail);
  }

  lemma ParseEmitNextItem(v: Json, more: Str, items: seq<Json>, tail: Str)
    requires Pure(v) && ParseItems(more) == Some((items, tail))
    ensures ParseItems(Emit(v) + ([',' as int] + more)) == Some(([v] + items, tail))
    decreases v, 2
  {
    ParseEmit(v, [',' as int] + more);
    ParseItemsMore(Emit(v) + ([',' as int] + more), v, more, items, tail);
  }

  lemma ParseEmitMoreItems(items: seq<Json>, tail: Str)
    requires |items| > 1 && Pure(items[0])
    requires ParseItems(EmitItems(items[1..]) + ([']' as int] + tail)) == Some((items[1..], tail))
    ensures ParseItems(EmitItems(items) + ([']' as int] + tail)) == Some((items, tail))
    decreases items[0], 3
  {
    EmitItemsSplit(items, [']' as int] + tail);
    ParseEmitNextItem(items[0], EmitItems(items[1..]) + ([']' as int] + tail), items[1..], tail);
    HeadAndTail(items);
  }

  lemma {:induction false} ParseEmitItems(items: seq<Json>, tail: Str)
    requires items != [] && forall i :: 0 <= i < |items| ==> Pure(items[i])
    ensures ParseItems(EmitItems(items) + ([']' as int] + tail)) == Some((items, tail))
    decreases items, 0
  {
    if |items| == 1 {
      EmitItemsSplit(items, [']' as int] + tail);
      ParseEmitLastItem(items[0], tail);
      assert items == [items[0]];
    } else {
      ParseEmitItems(items[1..], tail);
      ParseEmitMoreItems(items, tail);
    }
  }

  lemma {:induction false} ParseEmitMember(m: Member, tail: Str)
    requires Pure(m.value) && Ends(tail)
    ensures ParseMember(EmitMember(m) + tail) == Some((m, tail))
    decreases m, 2
  {
    var colon: Str := [':' as int];
    var text := Emit(m.value);
    ParseEmit(m.value, tail);
    Parts(colon, text + tail);
    UnquoteQuote(m.key, colon + (text + tail));
    ParseMemberStep(Quote(m.key) + (colon + (text + tail)), m.key, text + tail, m.value, tail);
    Assoc(Quote(m.key), colon, text);
    Assoc(Quote(m.key), colon + text, tail);
    Assoc(colon, text, tail);
  }

  lemma ParseMemberStep(t: Str, key: Str, after: Str, v: Json, tail: Str)
    requires t != [] && t[0] == QUOTE && UnquoteBody(t[1..]) == Some((key, [':' as int] + after))
    requires Parse(after) == Some((v, tail))
    ensures ParseMember(t) == Some((Member(key, v), tail))
  {
    Parts([':' as int], after);
  }

  lemma ParseMembersLast(t: Str, m: Member, tail: Str)
    requires ParseMember(t) == Some((m, ['}' as int] + tail))
    ensures ParseMembers(t) == Some(([m], tail))
  {
    assert (['}' as int] + tail)[1..] == tail;
  }

  lemma ParseMembersMore(t: Str, m: Member, more: Str, ms: seq<Member>, tail: Str)
    requires ParseMember(t) == Some((m, [',' as int] + more)) && ParseMembers(more) == Some((ms, tail))
    ensures ParseMembers(t) == Some(([m] + ms, tail))
  {
    assert ([',' as int] + more)[1..] == more;
  }

  lemma EmitMembersSplit(ms: seq<Member>, close: Str)
    requires ms != []
    ensures EmitMembers(ms) + close ==
      EmitMember(ms[0]) + (if |ms| == 1 then close else [',' as int] + (EmitMembers(ms[1..]) + close))
  {
    var first := EmitMember(ms[0]);
    if |ms| > 1 {
      var more := EmitMembers(ms[1..]);
      Assoc(first, [',' as int] + more, close);
      Assoc([',' as int], more, close);
    } else {
      Parts(first, []);
    }
  }

  lemma ParseEmitLastMember(m: Member, tail: Str)
    requires Pure(m.value)
    ensures ParseMembers(EmitMember(m) + (['}' as int] + tail)) == Some(([m], tail))
    decreases m, 3
  {
    ParseEmitMember(m, ['}' as int] + tail);
    ParseMembersLast(EmitMember(m) + (['}' as int] + tail), m, tail);
  }

  lemma ParseEmitNextMember(m: Member, more: Str, ms: seq<Member>, tail: Str)
    requires Pure(m.value) && ParseMembers(more) == Some((ms, tail))
    ensures ParseMembers(EmitMember(m) + ([',' as int] + more)) == Some(([m] + ms, tail))
    decreases m, 3
  {
    ParseEmitMember(m, [',' as int] + more);
    ParseMembersMore(EmitMember(m) + ([',' as int] + more), m, more, ms, tail);
  }

  lemma ParseEmitMoreMembers(ms: seq<Member>, tail: Str)
    requires |ms| > 1 && Pure(ms[0].value)
    requires ParseMembers(EmitMembers(ms[1..]) + (['}' as int] + tail)) == Some((ms[1..], tail))
    ensures ParseMembers(EmitMembers(ms) + (['}' as int] + tail)) == Some((ms, tail))
    decreases ms[0], 4
  {
    EmitMembersSplit(ms, ['}' as int] + tail);
    ParseEmitNextMember(ms[0], EmitMembers(ms[1..]) + (['}' as int] + tail), ms[1..], tail);
    HeadAndTail(ms);
  }

  lemma {:induction false} ParseEmitMembers(ms: seq<Member>, tail: Str)
    requires ms != [] && forall i :: 0 <= i < |ms| ==> Pure(ms[i].value)
    ensures ParseMembers(EmitMembers(ms) + (['}' as int] + tail)) == Some((ms, tail))
    decreases ms, 0
  {
    if |ms| == 1 {
      EmitMembersSplit(ms, ['}' as int] + tail);
      ParseEmitLastMember(ms[0], tail);
      assert ms == [ms[0]];
    } else {
      ParseEmitMembers(ms[1..], tail);
      ParseEmitMoreMembers(ms, tail);
    }
  }

  /** Equal texts come from equal values. */
  lemma EmitInjective(v: Json, w: Json)
    requires Pure(v) && Pure(w) && Emit(v) == Emit(w)
    ensures v == w
  {
    ParseEmit(v, []);
    ParseEmit(w, []);
    assert Emit(v) + [] == Emit(v) && Emit(w) + [] == Emit(w);
  }
}
