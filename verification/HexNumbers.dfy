/** Numbers as hexadecimal text: the 32-byte words of calldata. */
module HexNumbers {
  import opened Text
  import opened Json

  /** The value of a digit string, after digits worth `acc`. */
  function HexNumber(s: Str, acc: nat): Option<nat> {
    if s == [] then Some(acc)
    else match HexValue(s[0])
      case None => None
      case Some(v) => HexNumber(s[1..], 16 * acc + v)
  }

  /** toString(16). */
  function HexText(n: nat): Str {
    if n < 16 then [HexDigit(n)] else HexText(n / 16) + [HexDigit(n % 16)]
  }

  function Zeros(n: nat): Str { seq(n, _ => '0' as int) }

  /** padStart(width, "0"), which leaves longer texts alone. */
  function Padded(width: nat, s: Str): Str { if |s| >= width then s else Zeros(width - |s|) + s }

  function Pad64(s: Str): Str { Padded(64, s) }

  /** The word, in digits of any case, writes this number. */
  predicate Writes(word: Str, n: nat) { Lower(word) == Pad64(HexText(n)) }

  // ---------------------------------------------------------------- reading

  lemma {:induction false} HexTextPrefix(n: nat, tail: Str)
    ensures HexNumber(HexText(n) + tail, 0) == HexNumber(tail, n)
  {
    HexDigitRead(n % 16);
    var d: Str := [HexDigit(n % 16)];
    Parts(d, tail);
    if n >= 16 {
      Assoc(HexText(n / 16), d, tail);
      HexTextPrefix(n / 16, d + tail);
    }
  }

  lemma {:induction false} ZerosIgnored(n: nat, s: Str)
    ensures HexNumber(Zeros(n) + s, 0) == HexNumber(s, 0)
  {
    if n == 0 {
      assert Zeros(0) + s == s;
    } else {
      assert Zeros(n) == ['0' as int] + Zeros(n - 1);
      Assoc(['0' as int], Zeros(n - 1), s);
      Parts(['0' as int], Zeros(n - 1) + s);
      ZerosIgnored(n - 1, s);
    }
  }

  lemma PadReads(n: nat)
    ensures HexNumber(Pad64(HexText(n)), 0) == Some(n)
  {
    var t := HexText(n);
    HexTextPrefix(n, []);
    assert t + [] == t;
    if |t| < 64 { ZerosIgnored(64 - |t|, t); }
  }

  function SixteenTo(n: nat): nat { if n == 0 then 1 else 16 * SixteenTo(n - 1) }

  lemma {:induction false} HexTextLength(n: nat, digits: nat)
    requires digits > 0
    ensures |HexText(n)| <= digits <==> n < SixteenTo(digits)
  {
    if digits == 1 {
      assert SixteenTo(1) == 16 * SixteenTo(0);
    } else if n >= 16 {
      HexTextLength(n / 16, digits - 1);
    } else {
      SixteenGrows(digits - 1);
    }
  }

  lemma {:induction false} SixteenGrows(n: nat)
    requires n > 0
    ensures SixteenTo(n) >= 16
  {
    if n > 1 { SixteenGrows(n - 1); }
  }

  // ---------------------------------------------------------- and writing again

  lemma LowerDigit(c: CodeUnit)
    ensures HexValue(LowerUnit(c)) == HexValue(c)
    ensures HexValue(c).Some? ==> LowerUnit(c) == HexDigit(HexValue(c).value)
  {
  }

  lemma LowerSnoc(s: Str, c: CodeUnit)
    ensures Lower(s + [c]) == Lower(s) + [LowerUnit(c)]
  {
  }

  lemma {:induction false} HexNumberSnoc(s: Str, c: CodeUnit, acc: nat)
    ensures HexNumber(s + [c], acc) ==
      match (HexNumber(s, acc), HexValue(c))
      case (Some(v), Some(d)) => Some(16 * v + d)
      case _ => None
  {
    if s == [] {
      assert s + [c] == [c] && [c][1..] == [];
    } else {
      Parts(s, [c]);
      if HexValue(s[0]).Some? { HexNumberSnoc(s[1..], c, 16 * acc + HexValue(s[0]).value); }
    }
  }

  lemma PaddedSnoc(width: nat, v: nat, d: nat)
    requires d < 16 && width > 0
    ensures Padded(width + 1, HexText(16 * v + d)) == Padded(width, HexText(v)) + [HexDigit(d)]
  {
    var c: Str := [HexDigit(d)];
    if v == 0 {
      assert HexText(v) == ['0' as int] && HexText(16 * v + d) == c;
      assert Zeros(width) == Zeros(width - 1) + ['0' as int];
      if width == 1 { assert Zeros(1) == ['0' as int]; }
    } else {
      assert (16 * v + d) / 16 == v && (16 * v + d) % 16 == d;
      assert HexText(16 * v + d) == HexText(v) + c;
      if |HexText(v)| < width { Assoc(Zeros(width - |HexText(v)|), HexText(v), c); }
    }
  }

  /** A digit string is the padded text of its value. */
  lemma {:induction false} ReadThenWrite(s: Str)
    requires s != [] && HexNumber(s, 0).Some?
    ensures Lower(s) == Padded(|s|, HexText(HexNumber(s, 0).value))
  {
    var init, c := s[..|s| - 1], s[|s| - 1];
    assert s == init + [c];
    HexNumberSnoc(init, c, 0);
    LowerSnoc(init, c);
    LowerDigit(c);
    if init == [] {
      assert Lower(s) == [HexDigit(HexValue(c).value)];
    } else {
      ReadThenWrite(init);
      PaddedSnoc(|init|, HexNumber(init, 0).value, HexValue(c).value);
    }
  }

  lemma {:induction false} LowerReadsSame(s: Str, acc: nat)
    ensures HexNumber(Lower(s), acc) == HexNumber(s, acc)
  {
    if s != [] {
      LowerDigit(s[0]);
      assert Lower(s)[1..] == Lower(s[1..]);
      if HexValue(s[0]).Some? { LowerReadsSame(s[1..], 16 * acc + HexValue(s[0]).value); }
    }
  }

  /** Reading a word yields exactly the number it writes. */
  lemma WordReads(word: Str, n: nat)
    requires |word| == 64
    ensures HexNumber(word, 0) == Some(n) <==> Writes(word, n)
  {
    if HexNumber(word, 0) == Some(n) { ReadThenWrite(word); }
    if Writes(word, n) {
      PadReads(n);
      LowerReadsSame(word, 0);
    }
  }
}
