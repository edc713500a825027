/** JavaScript strings: sequences of UTF-16 code units, compared unit by unit. */
module Text {
  type CodeUnit = c: int | 0 <= c < 0x10000
  type Str = seq<CodeUnit>

  /** A literal of the program text. */
  type Ascii = s: string | forall i :: 0 <= i < |s| ==> s[i] as int < 128 witness ""

  function S(s: Ascii): (r: Str)
    ensures |r| == |s|
    ensures s != [] ==> r[0] == s[0] as int
  {
    seq(|s|, i requires 0 <= i < |s| => s[i] as int)
  }

  lemma Assoc<T>(a: seq<T>, b: seq<T>, c: seq<T>)
    ensures (a + b) + c == a + (b + c)
  {
  }

  lemma HeadAndTail<T>(s: seq<T>)
    requires s != []
    ensures s == [s[0]] + s[1..]
  {
  }

  /** The parts of a concatenation. */
  lemma Parts<T>(a: seq<T>, b: seq<T>)
    ensures (a + b)[|a|..] == b && (a + b)[..|a|] == a
    ensures a != [] ==> (a + b)[0] == a[0] && (a + b)[1..] == a[1..] + b
    ensures a == [] ==> a + b == b
    ensures b == [] ==> a + b == a
  {
  }

  /** A global replacement of a literal pattern. */
  function ReplaceAll(t: Str, pattern: Str, replacement: Str): Str
    requires pattern != []
  {
    if t == [] then []
    else if pattern <= t then replacement + ReplaceAll(t[|pattern|..], pattern, replacement)
    else [t[0]] + ReplaceAll(t[1..], pattern, replacement)
  }

  // ------------------------------------------------------------------ order

  /** The default string comparison: first differing code unit, a prefix before its extensions. */
  predicate Less(a: Str, b: Str) {
    b != [] && (a == [] || a[0] < b[0] || (a[0] == b[0] && Less(a[1..], b[1..])))
  }

  /** Where the strings first differ the unit decides, and a string that ends there goes first. */
  lemma {:induction false} LessAt(a: Str, b: Str, k: nat)
    requires k <= |a| && k <= |b| && a[..k] == b[..k]
    ensures k < |a| && k < |b| && a[k] != b[k] ==> (Less(a, b) <==> a[k] < b[k])
    ensures k == |a| || k == |b| ==> (Less(a, b) <==> |a| < |b|)
  {
    if k > 0 {
      assert a[0] == a[..k][0] == b[..k][0] == b[0];
      assert a[1..][..k - 1] == a[..k][1..] == b[..k][1..] == b[1..][..k - 1];
      LessAt(a[1..], b[1..], k - 1);
    }
  }

  /** The length of the common beginning. */
  ghost function Common(a: Str, b: Str): (k: nat)
    ensures k <= |a| && k <= |b| && a[..k] == b[..k]
    ensures k < |a| && k < |b| ==> a[k] != b[k]
  {
    if a == [] || b == [] || a[0] != b[0] then 0
    else
      var k := Common(a[1..], b[1..]);
      assert a[..k + 1] == [a[0]] + a[1..][..k] && b[..k + 1] == [b[0]] + b[1..][..k];
      k + 1
  }

  lemma {:induction false} LessIrreflexive(a: Str)
    ensures !Less(a, a)
  {
    if a != [] { LessIrreflexive(a[1..]); }
  }

  lemma {:induction false} LessTransitive(a: Str, b: Str, c: Str)
    requires Less(a, b) && Less(b, c)
    ensures Less(a, c)
  {
    if a != [] && a[0] == b[0] && b[0] == c[0] { LessTransitive(a[1..], b[1..], c[1..]); }
  }

  lemma {:induction false} LessTotal(a: Str, b: Str)
    ensures a == b || Less(a, b) || Less(b, a)
  {
    if a != [] && b != [] && a[0] == b[0] {
      LessTotal(a[1..], b[1..]);
      assert a == [a[0]] + a[1..] && b == [b[0]] + b[1..];
    }
  }

  /** Everything a comparator built on `Less` needs, at once. */
  lemma LessOrders()
    ensures forall a :: !Less(a, a)
    ensures forall a, b, c :: Less(a, b) && Less(b, c) ==> Less(a, c)
    ensures forall a, b :: a == b || Less(a, b) || Less(b, a)
    ensures forall a, b, c :: !Less(a, b) && !Less(b, c) ==> !Less(a, c)
  {
    forall a ensures !Less(a, a) { LessIrreflexive(a); }
    forall a, b ensures a == b || Less(a, b) || Less(b, a) { LessTotal(a, b); }
    forall a, b, c | Less(a, b) && Less(b, c) ensures Less(a, c) { LessTransitive(a, b, c); }
    forall a, b, c | !Less(a, b) && !Less(b, c) ensures !Less(a, c) {
      LessTotal(a, b);
      LessTotal(b, c);
      if Less(a, c) {
        if a == b || b == c { } else { LessTransitive(c, b, a); LessTransitive(a, c, a); LessIrreflexive(a); }
      }
    }
  }

  // ------------------------------------------------------------ ASCII case

  /** toLowerCase on the letters that occur in addresses, selectors and digests. */
  function LowerUnit(c: CodeUnit): CodeUnit {
    if 65 <= c <= 90 then c + 32 else c
  }

  function Lower(s: Str): (r: Str)
    ensures |r| == |s|
    ensures forall i :: 0 <= i < |s| ==> r[i] == LowerUnit(s[i])
  {
    seq(|s|, i requires 0 <= i < |s| => LowerUnit(s[i]))
  }

  /** A letter and its lower-case form have the same place in the alphabet; nothing else changes. */
  lemma LowerMeans(c: CodeUnit)
    ensures 'A' as int <= c <= 'Z' as int ==> LowerUnit(c) - 'a' as int == c - 'A' as int
    ensures !('A' as int <= c <= 'Z' as int) ==> LowerUnit(c) == c
  {
  }

  lemma LowerTwice(s: Str)
    ensures Lower(Lower(s)) == Lower(s)
  {
    forall i | 0 <= i < |s| ensures Lower(Lower(s))[i] == Lower(s)[i] {
    }
  }

  /** JavaScript's white space and line terminators. */
  predicate IsSpace(c: CodeUnit) {
    9 <= c <= 13 || c == 32 || c == 160 || c == 0x1680 || 0x2000 <= c <= 0x200A
    || c in {0x2028, 0x2029, 0x202F, 0x205F, 0x3000, 0xFEFF}
  }

  // --------------------------------------------------------------- decimals

  predicate IsDigit(c: CodeUnit) { 48 <= c <= 57 }

  predicate IsDecimal(s: Str) {
    s != [] && forall i :: 0 <= i < |s| ==> IsDigit(s[i])
  }

  /** A uint as the system carries it: a non-empty string of decimal digits. */
  type Decimal = s: Str | IsDecimal(s) witness [48]

  /** Number and BigInt to text. */
  function Dec(n: nat): (r: Decimal) {
    if n < 10 then [48 + n] else Dec(n / 10) + [48 + n % 10]
  }

  /** Reads the longest run of digits, most significant first. */
  function ReadDigits(s: Str, acc: nat): (r: (nat, Str))
    ensures |r.1| <= |s|
  {
    if s == [] || !IsDigit(s[0]) then (acc, s)
    else ReadDigits(s[1..], 10 * acc + (s[0] - 48))
  }

  /** BigInt(s) and Number(s) on a decimal string. */
  function Big(s: Decimal): nat {
    ReadDigits(s, 0).0
  }

  /** Decimal place value: one more digit. */
  lemma {:induction false} BigSnoc(s: Decimal, d: CodeUnit)
    requires IsDigit(d)
    ensures Big([d]) == d - '0' as int
    ensures IsDecimal(s + [d]) && Big(s + [d]) == 10 * Big(s) + Big([d])
  {
    assert ReadDigits([d], 0) == ReadDigits([d][1..], d - '0' as int) && [d][1..] == [];
    ReadSnoc(s, d, 0);
  }

  lemma {:induction false} ReadSnoc(s: Str, d: CodeUnit, acc: nat)
    requires IsDigit(d) && forall i :: 0 <= i < |s| ==> IsDigit(s[i])
    ensures ReadDigits(s + [d], acc).0 == 10 * ReadDigits(s, acc).0 + (d - '0' as int)
  {
    if s == [] {
      assert (s + [d])[1..] == [];
    } else {
      Parts(s, [d]);
      ReadSnoc(s[1..], d, 10 * acc + (s[0] - 48));
    }
  }

  lemma {:induction false} ReadDecPrefix(n: nat, tail: Str)
    ensures ReadDigits(Dec(n) + tail, 0) == ReadDigits(tail, n)
  {
    if n < 10 {
      assert ([48 + n] + tail)[1..] == tail;
    } else {
      var d: Str := [48 + n % 10];
      assert Dec(n) + tail == Dec(n / 10) + (d + tail);
      ReadDecPrefix(n / 10, d + tail);
      assert (d + tail)[1..] == tail;
    }
  }

  /** Printing a number and reading it back. */
  lemma ReadDec(n: nat, tail: Str)
    requires tail == [] || !IsDigit(tail[0])
    ensures ReadDigits(Dec(n) + tail, 0) == (n, tail)
  {
    ReadDecPrefix(n, tail);
  }

  lemma BigDec(n: nat)
    ensures Big(Dec(n)) == n
  {
    ReadDec(n, []);
    assert Dec(n) + [] == Dec(n);
  }
}
