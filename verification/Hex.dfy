/** Bytes and their hexadecimal text. */
module Hex {
  import opened Text
  import opened Json

  type Byte = b: int | 0 <= b < 256
  type Bytes = seq<Byte>

  /** A keccak256 output. */
  type Digest = b: Bytes | |b| == 32 witness seq(32, i => 0)

  /** The hash is not interpreted: every result below holds for every function of this type. */
  type Hash = Bytes -> Digest

  function HexPairs(bytes: Bytes): (r: Str)
    ensures |r| == 2 * |bytes|
    ensures forall i :: 0 <= i < |bytes| ==>
      r[2 * i] == HexDigit(bytes[i] / 16) && r[2 * i + 1] == HexDigit(bytes[i] % 16)
  {
    seq(2 * |bytes|, i requires 0 <= i < 2 * |bytes| =>
      HexDigit(if i % 2 == 0 then bytes[i / 2] / 16 else bytes[i / 2] % 16))
  }

  function ToHex(bytes: Bytes): (r: Str)
    ensures |r| == 2 * |bytes| + 2
  {
    ['0' as int, 'x' as int] + HexPairs(bytes)
  }

  /** Number.parseInt(two characters, 16), reduced as a Uint8Array stores it; None is NaN.
      parseInt skips a space, takes a sign, drops a 0x and stops at the first character that is
      not a digit. */
  function ParsePair(a: CodeUnit, b: CodeUnit): (r: Option<Byte>) {
    match (HexValue(a), HexValue(b))
    case (Some(x), Some(y)) => Some(16 * x + y)
    case (Some(x), None) => if a == '0' as int && (b == 'x' as int || b == 'X' as int) then None else Some(x)
    case (None, Some(y)) =>
      if IsSpace(a) || a == '+' as int then Some(y)
      else if a == '-' as int then Some((256 - y) % 256)
      else None
    case (None, None) => None
  }

  function SkipSpaces(s: Str): Str { if s != [] && IsSpace(s[0]) then SkipSpaces(s[1..]) else s }

  /** The value of the digits at the front, after digits worth `acc`. */
  function FrontDigits(s: Str, acc: nat): nat {
    if s == [] || HexValue(s[0]).None? then acc else FrontDigits(s[1..], 16 * acc + HexValue(s[0]).value)
  }

  /** Number.parseInt(s, 16), None for NaN: white space, a sign, a 0x, and then as many digits as there
      are, but at least one. */
  function ParseInt16(s: Str): Option<int> {
    var t := SkipSpaces(s);
    var signed := t != [] && (t[0] == '+' as int || t[0] == '-' as int);
    var u := if signed then t[1..] else t;
    var prefixed := |u| >= 2 && u[0] == '0' as int && (u[1] == 'x' as int || u[1] == 'X' as int);
    var digits := if prefixed then u[2..] else u;
    var value: int := FrontDigits(digits, 0);
    if digits == [] || HexValue(digits[0]).None? then None
    else Some(if signed && t[0] == '-' as int then -value else value)
  }

  /** A pair is read as parseInt reads any text, and stored modulo 256. */
  lemma PairIsParseInt(a: CodeUnit, b: CodeUnit)
    ensures ParsePair(a, b).Some? <==> ParseInt16([a, b]).Some?
    ensures ParsePair(a, b).Some? ==> ParsePair(a, b).value == ParseInt16([a, b]).value % 256
  {
    if HexValue(a).Some? { PairOfDigit(a, b); } else { PairOfOther(a, b); }
  }

  lemma PairOfDigit(a: CodeUnit, b: CodeUnit)
    requires HexValue(a).Some?
    ensures ParsePair(a, b).Some? <==> ParseInt16([a, b]).Some?
    ensures ParsePair(a, b).Some? ==> ParsePair(a, b).value == ParseInt16([a, b]).value % 256
  {
    assert [a, b][2..] == [] && SkipSpaces([a, b]) == [a, b];
    TwoDigits(a, b);
  }

  lemma PairOfOther(a: CodeUnit, b: CodeUnit)
    requires HexValue(a).None?
    ensures ParsePair(a, b).Some? <==> ParseInt16([a, b]).Some?
    ensures ParsePair(a, b).Some? ==> ParsePair(a, b).value == ParseInt16([a, b]).value % 256
  {
    assert [a, b][1..] == [b] && [b][1..] == [];
    assert SkipSpaces([b]) == if IsSpace(b) then [] else [b];
    assert SkipSpaces([a, b]) == if IsSpace(a) then SkipSpaces([b]) else [a, b];
    TwoDigits(a, b);
  }

  lemma TwoDigits(a: CodeUnit, b: CodeUnit)
    ensures HexValue(b).Some? ==> FrontDigits([b], 0) == HexValue(b).value
    ensures HexValue(a).Some? && HexValue(b).None? ==> FrontDigits([a, b], 0) == HexValue(a).value
    ensures HexValue(a).Some? && HexValue(b).Some? ==>
      FrontDigits([a, b], 0) == 16 * HexValue(a).value + HexValue(b).value
  {
    assert [a, b][1..] == [b] && [b][1..] == [];
    if HexValue(a).Some? { assert FrontDigits([a, b], 0) == FrontDigits([b], HexValue(a).value); }
  }

  predicate ReadablePairs(body: Str) {
    |body| % 2 == 0 && forall i :: 0 <= i < |body| / 2 ==> ParsePair(body[2 * i], body[2 * i + 1]).Some?
  }

  function PairBytes(body: Str): (r: Bytes)
    requires ReadablePairs(body)
    ensures |r| == |body| / 2
    ensures forall i :: 0 <= i < |r| ==> r[i] == ParsePair(body[2 * i], body[2 * i + 1]).value
  {
    seq(|body| / 2, i requires 0 <= i < |body| / 2 => ParsePair(body[2 * i], body[2 * i + 1]).value)
  }

  /** hex.slice(2): the prefix is dropped unseen. */
  function Body(hex: Str): Str { if |hex| < 2 then [] else hex[2..] }

  /** What fromHex computes; None is its thrown error. */
  function FromHex(hex: Str): Option<Bytes> {
    if ReadablePairs(Body(hex)) then Some(PairBytes(Body(hex))) else None
  }

  /** The bytes of a text after its first two characters: one for every two, and none if one is over
      or a pair is no number. */
  lemma FromHexMeans(prefix: Str, body: Str, bytes: Bytes)
    requires |prefix| == 2
    ensures FromHex(prefix + body) == Some(bytes) <==>
      |body| == 2 * |bytes| && forall i :: 0 <= i < |bytes| ==> PairReads(body, i, bytes[i])
  {
    assert Body(prefix + body) == body;
    forall i | 0 <= i < |body| / 2
      ensures ParsePair(body[2 * i], body[2 * i + 1]).Some? ==>
        PairReads(body, i, ParsePair(body[2 * i], body[2 * i + 1]).value)
      ensures forall b: Byte :: PairReads(body, i, b) ==> ParsePair(body[2 * i], body[2 * i + 1]) == Some(b)
    {
      PairIsParseInt(body[2 * i], body[2 * i + 1]);
      assert body[2 * i..2 * i + 2] == [body[2 * i], body[2 * i + 1]];
    }
    if |body| == 2 * |bytes| && forall i :: 0 <= i < |bytes| ==> PairReads(body, i, bytes[i]) {
      forall i | 0 <= i < |body| / 2 ensures ParsePair(body[2 * i], body[2 * i + 1]).Some? {
        assert PairReads(body, i, bytes[i]);
      }
      assert PairBytes(body) == bytes;
    }
  }

  predicate PairReads(body: Str, i: nat, b: Byte)
    requires 2 * i + 1 < |body|
  {
    var n := ParseInt16(body[2 * i..2 * i + 2]);
    n.Some? && n.value % 256 == b
  }

  /** fromHex itself: a loop over byte positions that stops at the first unreadable one. */
  method ReadHex(hex: Str) returns (r: Option<Bytes>)
    ensures r == FromHex(hex)
  {
    var body := Body(hex);
    if |body| % 2 != 0 { return None; }
    var out: Bytes := [];
    for i := 0 to |body| / 2
      invariant |out| == i
      invariant forall k :: 0 <= k < i ==> ParsePair(body[2 * k], body[2 * k + 1]) == Some(out[k])
    {
      match ParsePair(body[2 * i], body[2 * i + 1])
      case None => return None;
      case Some(byte) => out := out + [byte];
    }
    assert out == PairBytes(body);
    return Some(out);
  }

  lemma ReadWritten(b: Byte)
    ensures ParsePair(HexDigit(b / 16), HexDigit(b % 16)) == Some(b)
  {
    HexDigitRead(b / 16);
    HexDigitRead(b % 16);
  }

  /** Writing bytes in hexadecimal and reading them back. */
  lemma HexRoundTrip(bytes: Bytes)
    ensures FromHex(ToHex(bytes)) == Some(bytes)
  {
    var body := HexPairs(bytes);
    assert Body(ToHex(bytes)) == body;
    forall i | 0 <= i < |body| / 2 ensures ParsePair(body[2 * i], body[2 * i + 1]) == Some(bytes[i]) {
      ReadWritten(bytes[i]);
    }
    assert PairBytes(body) == bytes;
  }

  predicate IsHexDigit(c: CodeUnit) { HexValue(c).Some? }

  /** 0x followed by hexadecimal digits of either case. */
  predicate IsHex(hex: Str) {
    |hex| >= 2 && hex[0] == '0' as int && hex[1] == 'x' as int && forall i :: 2 <= i < |hex| ==> IsHexDigit(hex[i])
  }

  /** A digest as the events and receipts carry it: 0x and 64 hexadecimal digits. */
  predicate IsDigest(hex: Str) { IsHex(hex) && |hex| == 66 }

  lemma DigestReads(hex: Str)
    requires IsDigest(hex)
    ensures FromHex(hex).Some? && |FromHex(hex).value| == 32
  {
    var body := Body(hex);
    forall i | 0 <= i < |body| / 2 ensures ParsePair(body[2 * i], body[2 * i + 1]).Some? {
      assert IsHexDigit(hex[2 * i + 2]) && IsHexDigit(hex[2 * i + 3]);
    }
  }

  /** The bytes of a digest text. */
  function DigestOf(hex: Str): Digest
    requires IsDigest(hex)
  {
    DigestReads(hex);
    FromHex(hex).value
  }

  lemma LowerPair(a: CodeUnit, b: CodeUnit)
    ensures ParsePair(LowerUnit(a), LowerUnit(b)) == ParsePair(a, b)
  {
  }

  /** Letter case never matters to the reader, on malformed text either. */
  lemma LowerReads(t: Str)
    ensures FromHex(Lower(t)) == FromHex(t)
  {
    var b, l := Body(t), Body(Lower(t));
    assert |l| == |b| && forall i :: 0 <= i < |b| ==> l[i] == LowerUnit(b[i]);
    forall i | 0 <= i < |b| / 2 ensures ParsePair(l[2 * i], l[2 * i + 1]) == ParsePair(b[2 * i], b[2 * i + 1]) {
      LowerPair(b[2 * i], b[2 * i + 1]);
    }
    if ReadablePairs(b) { assert PairBytes(l) == PairBytes(b); }
  }

  lemma LowerHexValue(c: CodeUnit)
    requires IsHexDigit(c)
    ensures HexValue(LowerUnit(c)) == HexValue(c)
    ensures LowerUnit(c) == HexDigit(HexValue(c).value)
  {
  }

  lemma DigestByte(hex: Str, k: nat)
    requires IsDigest(hex) && k < 32
    ensures IsHexDigit(hex[2 * k + 2]) && IsHexDigit(hex[2 * k + 3])
    ensures DigestOf(hex)[k] == 16 * HexValue(hex[2 * k + 2]).value + HexValue(hex[2 * k + 3]).value
  {
    assert Body(hex)[2 * k] == hex[2 * k + 2] && Body(hex)[2 * k + 1] == hex[2 * k + 3];
  }

  lemma SameByteSameText(a: Str, b: Str, k: nat)
    requires IsDigest(a) && IsDigest(b) && k < 32 && DigestOf(a)[k] == DigestOf(b)[k]
    ensures Lower(a)[2 * k + 2] == Lower(b)[2 * k + 2] && Lower(a)[2 * k + 3] == Lower(b)[2 * k + 3]
  {
    DigestByte(a, k);
    DigestByte(b, k);
    LowerHexValue(a[2 * k + 2]);
    LowerHexValue(a[2 * k + 3]);
    LowerHexValue(b[2 * k + 2]);
    LowerHexValue(b[2 * k + 3]);
  }

  lemma SameUnitAt(a: Str, b: Str, i: nat)
    requires IsDigest(a) && IsDigest(b) && DigestOf(a) == DigestOf(b) && i < 66
    ensures Lower(a)[i] == Lower(b)[i]
  {
    if i >= 2 {
      SameByteSameText(a, b, i / 2 - 1);
      assert i == 2 * (i / 2 - 1) + 2 || i == 2 * (i / 2 - 1) + 3;
    }
  }

  lemma SameDigestSameText(a: Str, b: Str)
    requires IsDigest(a) && IsDigest(b) && DigestOf(a) == DigestOf(b)
    ensures Lower(a) == Lower(b)
  {
    forall i | 0 <= i < 66 ensures Lower(a)[i] == Lower(b)[i] { SameUnitAt(a, b, i); }
  }

  /** Case does not matter to the bytes, and the bytes determine the text up to case. */
  lemma DigestsAgree(a: Str, b: Str)
    requires IsDigest(a) && IsDigest(b)
    ensures DigestOf(a) == DigestOf(b) <==> Lower(a) == Lower(b)
  {
    if DigestOf(a) == DigestOf(b) { SameDigestSameText(a, b); }
    LowerReads(a);
    LowerReads(b);
  }

  lemma LowerHexDigit(v: int)
    requires 0 <= v < 16
    ensures IsHexDigit(HexDigit(v)) && LowerUnit(HexDigit(v)) == HexDigit(v)
  {
  }

  lemma HexTextAt(d: Digest, k: nat)
    requires k < 32
    ensures ToHex(d)[2 * k + 2] == HexDigit(d[k] / 16)
    ensures ToHex(d)[2 * k + 3] == HexDigit(d[k] % 16)
  {
    Parts(['0' as int, 'x' as int], HexPairs(d));
    assert ToHex(d)[2 * k + 2] == ToHex(d)[2..][2 * k];
    assert ToHex(d)[2 * k + 3] == ToHex(d)[2..][2 * k + 1];
  }

  /** toHex of a digest is a lower-case digest text of those bytes. */
  lemma ToHexIsDigest(d: Digest)
    ensures IsDigest(ToHex(d)) && Lower(ToHex(d)) == ToHex(d) && DigestOf(ToHex(d)) == d
  {
    HexRoundTrip(d);
    forall i | 2 <= i < 66 ensures IsHexDigit(ToHex(d)[i]) && LowerUnit(ToHex(d)[i]) == ToHex(d)[i] {
      var k := i / 2 - 1;
      HexTextAt(d, k);
      LowerHexDigit(d[k] / 16);
      LowerHexDigit(d[k] % 16);
      assert i == 2 * k + 2 || i == 2 * k + 3;
    }
  }

  /** The reader is laxer than "0x and digits": it takes any text whose pairs parseInt can start,
      whatever the first two characters are. */
  lemma MalformedHexAccepted()
    ensures !IsHex(S("0x1g")) && FromHex(S("0x1g")) == Some([1])
    ensures !IsHex(S("zz-1")) && FromHex(S("zz-1")) == Some([255])
  {
    var a, b := S("0x1g"), S("zz-1");
    assert a[3] == 'g' as int && !IsHexDigit(a[3]);
    assert b[0] == 'z' as int;
    assert Body(a) == [49, 103] && Body(b) == [45, 49];
    assert ParsePair(49, 103) == Some(1) && ParsePair(45, 49) == Some(255);
    assert ReadablePairs(Body(a)) && ReadablePairs(Body(b));
    assert PairBytes(Body(a)) == [1] && PairBytes(Body(b)) == [255];
  }

  // ------------------------------------------------------------- byte order

  /** Lexicographic order of byte strings, a prefix first. */
  predicate BytesBefore(a: Bytes, b: Bytes) {
    b != [] && (a == [] || a[0] < b[0] || (a[0] == b[0] && BytesBefore(a[1..], b[1..])))
  }

  lemma {:induction false} BytesBeforeAt(a: Bytes, b: Bytes, k: nat)
    requires k <= |a| && k <= |b| && a[..k] == b[..k]
    ensures k < |a| && k < |b| && a[k] != b[k] ==> (BytesBefore(a, b) <==> a[k] < b[k])
    ensures k == |a| || k == |b| ==> (BytesBefore(a, b) <==> |a| < |b|)
  {
    if k > 0 {
      assert a[0] == a[..k][0] == b[..k][0] == b[0];
      assert a[1..][..k - 1] == a[..k][1..] == b[..k][1..] == b[1..][..k - 1];
      BytesBeforeAt(a[1..], b[1..], k - 1);
    }
  }

  /** compareBytes: negative, zero or positive as the first string is before, equal to or after
      the second. */
  method CompareBytes(a: Bytes, b: Bytes) returns (r: int)
    ensures r < 0 <==> BytesBefore(a, b)
    ensures r == 0 <==> a == b
    ensures r > 0 <==> BytesBefore(b, a)
  {
    var len := if |a| < |b| then |a| else |b|;
    for i := 0 to len
      invariant a[..i] == b[..i]
    {
      var diff: int := a[i] as int - b[i] as int;
      if diff != 0 {
        BytesBeforeAt(a, b, i);
        BytesBeforeAt(b, a, i);
        return diff;
      }
      assert a[..i + 1] == a[..i] + [a[i]] && b[..i + 1] == b[..i] + [b[i]];
    }
    BytesBeforeAt(a, b, len);
    BytesBeforeAt(b, a, len);
    if |a| == |b| { assert a == a[..len] && b == b[..len]; }
    return |a| - |b|;
  }

  lemma {:induction false} BytesTotal(a: Bytes, b: Bytes)
    ensures a == b || BytesBefore(a, b) || BytesBefore(b, a)
    ensures !(BytesBefore(a, b) && BytesBefore(b, a))
    ensures !BytesBefore(a, a)
  {
    if a != [] && b != [] {
      BytesTotal(a[1..], b[1..]);
      BytesTotal(a[1..], a[1..]);
      assert a == [a[0]] + a[1..] && b == [b[0]] + b[1..];
    } else if a != [] {
      BytesTotal(a[1..], []);
    }
  }
}
