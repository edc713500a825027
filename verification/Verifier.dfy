/** The browser verifier's own canonicalizer: it sorts entries instead of keys and rewrites
    escapes after the fact. */
module Verifier {
  import opened Text
  import opened Json
  import opened Canonical
  import Sorting

  /** The first replacement: every raw control character becomes a \u escape. */
  function EscapeControls(t: Str): Str {
    if t == [] then []
    else (if t[0] < 32 then UnicodeEscape(t[0]) else [t[0]]) + EscapeControls(t[1..])
  }

  function DelEscape(): Str { S("\\u007f") }

  function VerifierString(s: Str): Str {
    ReplaceAll(EscapeControls(Quote(s)), DelEscape(), DelEscape())
  }

  /** The text the verifier hashes for a JSON value. The circular-reference check compares object
      identities along one path and never fires on a value without cycles. */
  function VerifierText(v: Json): Str
    decreases v, 1
  {
    match v
    case Text(s) => VerifierString(s)
    case Arr(items) => ['[' as int] + ItemTexts(items) + [']' as int]
    case Obj(ms) =>
      Sorting.InMultiset(Sorting.Sort(MemberBefore, ms), ms);
      ['{' as int] + EntryTexts(ms, Sorting.Sort(MemberBefore, ms)) + ['}' as int]
    case _ => Emit(v)
  }

  function ItemTexts(items: seq<Json>): Str
    decreases items, 0
  {
    if items == [] then []
    else VerifierText(items[0]) + (if |items| == 1 then [] else [',' as int] + ItemTexts(items[1..]))
  }

  function EntryTexts(ms: seq<Member>, entries: seq<Member>): Str
    requires forall m :: m in entries ==> m in ms
    decreases ms, |entries|
  {
    if entries == [] then []
    else
      assert entries[0] in ms;
      Quote(entries[0].key) + [':' as int] + VerifierText(entries[0].value)
      + (if |entries| == 1 then [] else [',' as int] + EntryTexts(ms, entries[1..]))
  }

  // -------------------------------------------------------- the two agree

  predicate Printable(t: Str) { forall i :: 0 <= i < |t| ==> t[i] >= 32 }

  lemma QuoteUnitPrintable(c: CodeUnit)
    ensures Printable(QuoteUnit(c))
  {
  }

  lemma {:induction false} QuoteBodyPrintable(s: Str)
    ensures Printable(QuoteBody(s))
  {
    if s == [] {
    } else if StartsWithPair(s) {
      QuoteBodyPrintable(s[2..]);
    } else {
      QuoteBodyPrintable(s[1..]);
      QuoteUnitPrintable(s[0]);
    }
  }

  lemma {:induction false} NothingToEscape(t: Str)
    requires Printable(t)
    ensures EscapeControls(t) == t
  {
    if t != [] {
      NothingToEscape(t[1..]);
      assert t == [t[0]] + t[1..];
    }
  }

  lemma {:induction false} ReplaceBySelf(t: Str, pattern: Str)
    requires pattern != []
    ensures ReplaceAll(t, pattern, pattern) == t
  {
    if t == [] {
    } else if pattern <= t {
      ReplaceBySelf(t[|pattern|..], pattern);
      assert t == pattern + t[|pattern|..];
    } else {
      ReplaceBySelf(t[1..], pattern);
      assert t == [t[0]] + t[1..];
    }
  }

  /** Both replacements leave the text of a string alone. */
  lemma VerifierStringIsQuote(s: Str)
    ensures VerifierString(s) == Quote(s)
  {
    QuoteBodyPrintable(s);
    NothingToEscape(Quote(s));
    ReplaceBySelf(Quote(s), DelEscape());
  }

  lemma {:induction false} ItemTextsAreEmit(items: seq<Json>)
    ensures ItemTexts(items) == EmitItems(CanonItems(items))
    decreases items, 0
  {
    if items != [] {
      VerifierTextIsEmit(items[0]);
      ItemTextsAreEmit(items[1..]);
      assert CanonItems(items)[1..] == CanonItems(items[1..]);
    }
  }

  lemma {:induction false} EntryTextsAreEmit(ms: seq<Member>, entries: seq<Member>)
    requires forall m :: m in entries ==> m in ms
    ensures EntryTexts(ms, entries) == EmitMembers(CanonMembers(entries))
    decreases ms, |entries|
  {
    if entries != [] {
      assert entries[0] in ms;
      VerifierTextIsEmit(entries[0].value);
      EntryTextsAreEmit(ms, entries[1..]);
      assert CanonMembers(entries)[1..] == CanonMembers(entries[1..]);
    }
  }

  lemma {:induction false} VerifierTextIsEmit(v: Json)
    ensures VerifierText(v) == Emit(Canon(v))
    decreases v, 1
  {
    match v
    case Text(s) => VerifierStringIsQuote(s);
    case Arr(items) => ItemTextsAreEmit(items);
    case Obj(ms) =>
      var s := Sorting.Sort(MemberBefore, ms);
      Sorting.InMultiset(s, ms);
      EntryTextsAreEmit(ms, s);
      CanonSort(ms);
    case _ =>
  }

  /** Both verifiers hash the same text, for every JSON value. */
  lemma VerifiersAgree(v: Json)
    requires WellFormed(v) && Pure(v)
    ensures Serialize(v) == Some(VerifierText(v))
  {
    SerializeIsEmit(v);
    VerifierTextIsEmit(v);
  }
}
