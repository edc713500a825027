/** The metrics registry: label sets are kept under a rendered text, and what counters, gauges and
    histograms report agrees with the observations made. Values are reals, without rounding. */
module Metrics {
  import opened Text
  import opened Json
  import Sorting

  // --------------------------------------------------------------- escaping

  const NEWLINE: CodeUnit := 10

  /** Three replacements, one after another. */
  function EscapeLabelValue(v: Str): Str {
    ReplaceAll(ReplaceAll(ReplaceAll(v, [BACKSLASH], [BACKSLASH, BACKSLASH]), [NEWLINE], [BACKSLASH, 'n' as int]),
               [QUOTE], [BACKSLASH, QUOTE])
  }

  function EscapeUnit(c: CodeUnit): Str {
    if c == BACKSLASH then [BACKSLASH, BACKSLASH]
    else if c == NEWLINE then [BACKSLASH, 'n' as int]
    else if c == QUOTE then [BACKSLASH, QUOTE]
    else [c]
  }

  /** The same in one pass. */
  function EscapeEach(v: Str): Str {
    if v == [] then [] else EscapeUnit(v[0]) + EscapeEach(v[1..])
  }

  lemma ReplaceStep(t: Str, c: CodeUnit, r: Str)
    requires t != []
    ensures ReplaceAll(t, [c], r) == (if t[0] == c then r else [t[0]]) + ReplaceAll(t[1..], [c], r)
  {
    assert t[..1] == [t[0]];
    assert [c] <= t <==> t[..1] == [c];
    assert [t[0]] == [c] <==> [t[0]][0] == [c][0];
  }

  lemma {:induction false} ReplaceConcat(a: Str, b: Str, c: CodeUnit, r: Str)
    ensures ReplaceAll(a + b, [c], r) == ReplaceAll(a, [c], r) + ReplaceAll(b, [c], r)
  {
    Parts(a, b);
    if a == [] {
      assert [] + ReplaceAll(b, [c], r) == ReplaceAll(b, [c], r);
    } else {
      ReplaceConcat(a[1..], b, c, r);
      ReplaceStep(a, c, r);
      ReplaceStep(a + b, c, r);
      Assoc(if a[0] == c then r else [a[0]], ReplaceAll(a[1..], [c], r), ReplaceAll(b, [c], r));
    }
  }

  lemma ReplaceUnit(x: CodeUnit, c: CodeUnit, r: Str)
    ensures ReplaceAll([x], [c], r) == if x == c then r else [x]
  {
    assert [x][|[c]|..] == [];
    if [c] <= [x] { assert [x][0] == [c][0]; }
  }

  lemma ReplacePair(x: CodeUnit, y: CodeUnit, c: CodeUnit, r: Str)
    ensures x != c && y != c ==> ReplaceAll([x, y], [c], r) == [x, y]
  {
    ReplaceUnit(x, c, r);
    ReplaceUnit(y, c, r);
    ReplaceConcat([x], [y], c, r);
    assert [x, y] == [x] + [y];
  }

  /** The order of the replacements is right: no later one touches what an earlier one produced. */
  lemma {:induction false} EscapeIsOnePass(v: Str)
    ensures EscapeLabelValue(v) == EscapeEach(v)
  {
    if v != [] {
      EscapeIsOnePass(v[1..]);
      assert v == [v[0]] + v[1..];
      EscapeFirst(v[0], v[1..]);
    }
  }

  lemma EscapeFirst(x: CodeUnit, rest: Str)
    ensures EscapeLabelValue([x] + rest) == EscapeUnit(x) + EscapeLabelValue(rest)
  {
    var p, q, r := [BACKSLASH, BACKSLASH], [BACKSLASH, 'n' as int], [BACKSLASH, QUOTE];
    ReplaceUnit(x, BACKSLASH, p);
    ReplaceConcat([x], rest, BACKSLASH, p);
    var x1, rest1 := ReplaceAll([x], [BACKSLASH], p), ReplaceAll(rest, [BACKSLASH], p);
    ReplaceUnit(x, NEWLINE, q);
    ReplacePair(BACKSLASH, BACKSLASH, NEWLINE, q);
    ReplaceConcat(x1, rest1, NEWLINE, q);
    var x2, rest2 := ReplaceAll(x1, [NEWLINE], q), ReplaceAll(rest1, [NEWLINE], q);
    ReplaceUnit(x, QUOTE, r);
    ReplacePair(BACKSLASH, BACKSLASH, QUOTE, r);
    ReplacePair(BACKSLASH, 'n' as int, QUOTE, r);
    ReplaceConcat(x2, rest2, QUOTE, r);
  }

  /** Reads an escaped value up to the quote that ends it. */
  function ReadValue(t: Str): (r: Option<(Str, Str)>)
    ensures r.Some? ==> |r.value.1| < |t|
  {
    if t == [] then None
    else if t[0] == QUOTE then Some(([], t[1..]))
    else if t[0] != BACKSLASH then
      match ReadValue(t[1..])
      case None => None
      case Some((v, rest)) => Some(([t[0]] + v, rest))
    else if |t| < 2 then None
    else
      match ReadValue(t[2..])
      case None => None
      case Some((v, rest)) =>
        var c: CodeUnit := if t[1] == 'n' as int then NEWLINE else t[1];
        Some(([c] + v, rest))
  }

  lemma ReadUnit(c: CodeUnit, next: Str, v: Str, tail: Str)
    requires ReadValue(next) == Some((v, tail))
    ensures ReadValue(EscapeUnit(c) + next) == Some(([c] + v, tail))
  {
    var t := EscapeUnit(c) + next;
    assert t[|EscapeUnit(c)|..] == next;
    assert t[0] == EscapeUnit(c)[0];
    if |EscapeUnit(c)| == 2 { assert t[1] == EscapeUnit(c)[1]; }
  }

  /** A reader of the exposition format gets the value back. */
  lemma {:induction false} ReadEscaped(v: Str, tail: Str)
    ensures ReadValue(EscapeEach(v) + ([QUOTE] + tail)) == Some((v, tail))
  {
    if v == [] {
      assert EscapeEach(v) + ([QUOTE] + tail) == [QUOTE] + tail;
      assert ([QUOTE] + tail)[1..] == tail;
    } else {
      ReadEscaped(v[1..], tail);
      Assoc(EscapeUnit(v[0]), EscapeEach(v[1..]), [QUOTE] + tail);
      ReadUnit(v[0], EscapeEach(v[1..]) + ([QUOTE] + tail), v[1..], tail);
      assert v == [v[0]] + v[1..];
    }
  }

  // ----------------------------------------------------------------- labels

  datatype Label = Label(name: Str, value: Str)

  /** The own properties of a labels object, in their order. */
  type Labels = seq<Label>

  predicate NameUnit(c: CodeUnit) { c == 95 || IsDigit(c) || 65 <= c <= 90 || 97 <= c <= 122 }

  /** A Prometheus label name: letters, digits and underscores, no digit first. */
  predicate ValidName(n: Str) { n != [] && !IsDigit(n[0]) && forall i :: 0 <= i < |n| ==> NameUnit(n[i]) }

  predicate ValidLabels(ls: Labels) {
    && (forall i :: 0 <= i < |ls| ==> ValidName(ls[i].name))
    && (forall i, j :: 0 <= i < j < |ls| ==> ls[i].name != ls[j].name)
  }

  /** The label map an object stands for. */
  function AsMap(ls: Labels): map<Str, Str> {
    if ls == [] then map[] else AsMap(ls[..|ls| - 1])[ls[|ls| - 1].name := ls[|ls| - 1].value]
  }

  type Before = (Label, Label) -> bool

  /** localeCompare on names: a strict weak order that tells valid names apart. */
  ghost predicate LocaleOrder(before: Before) {
    && Sorting.StrictWeak(before)
    && forall a: Label, b: Label :: ValidName(a.name) && ValidName(b.name) && a.name != b.name ==>
         before(a, b) || before(b, a)
  }

  function RenderLabel(l: Label): Str { l.name + [61, QUOTE] + EscapeLabelValue(l.value) + [QUOTE] }

  function Join(ls: Labels): Str {
    if ls == [] then []
    else if |ls| == 1 then RenderLabel(ls[0])
    else RenderLabel(ls[0]) + [44] + Join(ls[1..])
  }

  function RenderLabels(before: Before, ls: Labels): Str {
    if ls == [] then [] else [123] + Join(Sorting.Sort(before, ls)) + [125]
  }

  // ------------------------------------------------- reading a rendered label set

  function ReadName(t: Str): (r: (Str, Str))
    ensures |r.1| <= |t|
  {
    if t == [] || t[0] == 61 then ([], t)
    else var (n, rest) := ReadName(t[1..]); ([t[0]] + n, rest)
  }

  lemma {:induction false} ReadNameBack(n: Str, tail: Str)
    requires forall i :: 0 <= i < |n| ==> NameUnit(n[i])
    ensures ReadName(n + ([61] + tail)) == (n, [61] + tail)
  {
    var t := n + ([61] + tail);
    if n == [] {
      assert t == [61] + tail;
    } else {
      Parts(n, [61] + tail);
      ReadNameBack(n[1..], tail);
      assert NameUnit(n[0]);
      assert n == [n[0]] + n[1..];
    }
  }

  /** One name="value" and what follows. */
  function ReadLabel(t: Str): (r: Option<(Label, Str)>)
    ensures r.Some? ==> |r.value.1| < |t|
  {
    var (n, rest) := ReadName(t);
    if |rest| < 2 || rest[1] != QUOTE then None
    else match ReadValue(rest[2..])
      case None => None
      case Some((v, more)) => Some((Label(n, v), more))
  }

  lemma ReadLabelBack(l: Label, tail: Str)
    requires ValidName(l.name)
    ensures ReadLabel(RenderLabel(l) + tail) == Some((l, tail))
  {
    EscapeIsOnePass(l.value);
    var body := EscapeEach(l.value) + ([QUOTE] + tail);
    var open: Str := [61, QUOTE];
    calc {
      RenderLabel(l) + tail;
      { Assoc(l.name + open + EscapeEach(l.value), [QUOTE], tail); }
      (l.name + open + EscapeEach(l.value)) + ([QUOTE] + tail);
      { Assoc(l.name + open, EscapeEach(l.value), [QUOTE] + tail); }
      (l.name + open) + body;
      { Assoc(l.name, open, body); }
      l.name + (open + body);
      { assert open + body == [61] + ([QUOTE] + body); }
      l.name + ([61] + ([QUOTE] + body));
    }
    ReadNameBack(l.name, [QUOTE] + body);
    var rest: Str := [61] + ([QUOTE] + body);
    assert rest[2..] == body && rest[1] == QUOTE;
    ReadEscaped(l.value, tail);
  }

  function ReadJoin(t: Str): Option<Labels>
    decreases |t|
  {
    match ReadLabel(t)
    case None => None
    case Some((l, rest)) =>
      if rest == [] then Some([l])
      else if rest[0] != 44 then None
      else match ReadJoin(rest[1..])
        case None => None
        case Some(ls) => Some([l] + ls)
  }

  lemma {:induction false} ReadJoinBack(ls: Labels)
    requires ls != [] && forall i :: 0 <= i < |ls| ==> ValidName(ls[i].name)
    ensures ReadJoin(Join(ls)) == Some(ls)
  {
    if |ls| == 1 {
      ReadLabelBack(ls[0], []);
      assert RenderLabel(ls[0]) + [] == RenderLabel(ls[0]);
      assert ls == [ls[0]];
    } else {
      ReadJoinBack(ls[1..]);
      ReadLabelBack(ls[0], [44] + Join(ls[1..]));
      Assoc(RenderLabel(ls[0]), [44], Join(ls[1..]));
      assert ([44] + Join(ls[1..]))[1..] == Join(ls[1..]);
      assert ls == [ls[0]] + ls[1..];
    }
  }

  // ---------------------------------------------------- texts and label maps

  ghost predicate HasName(ls: Labels, n: Str) { exists i :: 0 <= i < |ls| && ls[i].name == n }

  lemma HasNameSnoc(ls: Labels, l: Label, n: Str)
    ensures HasName(ls + [l], n) <==> HasName(ls, n) || l.name == n
  {
    var more := ls + [l];
    if i :| 0 <= i < |ls| && ls[i].name == n { assert more[i].name == n; }
    assert more[|ls|] == l;
    if i :| 0 <= i < |more| && more[i].name == n {
      if i < |ls| { assert ls[i].name == n; }
    }
  }

  lemma {:induction false} NamesMapped(ls: Labels, n: Str)
    ensures n in AsMap(ls) <==> HasName(ls, n)
  {
    if ls != [] {
      var init, last := ls[..|ls| - 1], ls[|ls| - 1];
      NamesMapped(init, n);
      HasNameSnoc(init, last, n);
      assert ls == init + [last];
    }
  }

  lemma {:induction false} MapMeans(ls: Labels, l: Label)
    requires forall i, j :: 0 <= i < j < |ls| ==> ls[i].name != ls[j].name
    ensures l in ls <==> l.name in AsMap(ls) && AsMap(ls)[l.name] == l.value
  {
    if ls != [] {
      var init, last := ls[..|ls| - 1], ls[|ls| - 1];
      MapMeans(init, l);
      NamesMapped(init, l.name);
      assert ls == init + [last];
      assert forall i :: 0 <= i < |init| ==> init[i] == ls[i] && ls[i].name != ls[|ls| - 1].name;
    }
  }

  lemma {:induction false} SameElements<T>(a: seq<T>, b: seq<T>)
    requires Sorting.Distinct(a) && Sorting.Distinct(b) && forall x :: x in a <==> x in b
    ensures multiset(a) == multiset(b)
  {
    forall x ensures multiset(a)[x] == multiset(b)[x] {
      CountDistinct(a, x);
      CountDistinct(b, x);
    }
  }

  lemma {:induction false} CountDistinct<T>(s: seq<T>, x: T)
    requires Sorting.Distinct(s)
    ensures multiset(s)[x] == if x in s then 1 else 0
  {
    if s != [] {
      CountDistinct(s[1..], x);
      assert s == [s[0]] + s[1..];
      assert multiset(s) == multiset{s[0]} + multiset(s[1..]);
    }
  }

  lemma SameMapSameLabels(a: Labels, b: Labels)
    requires ValidLabels(a) && ValidLabels(b)
    ensures AsMap(a) == AsMap(b) <==> multiset(a) == multiset(b)
  {
    if AsMap(a) == AsMap(b) {
      forall l ensures l in a <==> l in b {
        MapMeans(a, l);
        MapMeans(b, l);
      }
      SameElements(a, b);
    }
    if multiset(a) == multiset(b) {
      Sorting.InMultiset(a, b);
      forall n ensures n in AsMap(a) <==> n in AsMap(b) { NamesAgree(a, b, n); }
      forall n | n in AsMap(a) ensures AsMap(a)[n] == AsMap(b)[n] {
        NamesAgree(a, b, n);
        var l := Label(n, AsMap(a)[n]);
        MapMeans(a, l);
        MapMeans(b, l);
      }
    }
  }

  lemma NamesAgree(a: Labels, b: Labels, n: Str)
    requires forall l :: l in a <==> l in b
    ensures n in AsMap(a) <==> n in AsMap(b)
  {
    NamesMapped(a, n);
    NamesMapped(b, n);
    if i :| 0 <= i < |a| && a[i].name == n { assert a[i] in b; }
    if i :| 0 <= i < |b| && b[i].name == n { assert b[i] in a; }
  }

  lemma SortedLabelsValid(before: Before, ls: Labels)
    requires ValidLabels(ls)
    ensures forall i :: 0 <= i < |ls| ==> ValidName(Sorting.Sort(before, ls)[i].name)
  {
    var s := Sorting.Sort(before, ls);
    Sorting.InMultiset(ls, s);
    forall i | 0 <= i < |s| ensures ValidName(s[i].name) { assert s[i] in ls; }
  }

  lemma LabelsDistinguished(before: Before, ls: Labels)
    requires LocaleOrder(before) && ValidLabels(ls)
    ensures Sorting.Distinguishes(before, ls)
  {
    forall x, y | x in ls && y in ls && x != y ensures before(x, y) || before(y, x) {
      var i :| 0 <= i < |ls| && ls[i] == x;
      var j :| 0 <= j < |ls| && ls[j] == y;
    }
  }

  lemma RenderedSorted(before: Before, ls: Labels)
    requires ls != []
    ensures RenderLabels(before, ls)[1..|RenderLabels(before, ls)| - 1] == Join(Sorting.Sort(before, ls))
  {
  }

  /** Two label sets share a series exactly if they are the same map: neither the order of the
      labels nor any character of a value can bring two apart or together. */
  lemma SeriesKeysAgree(before: Before, a: Labels, b: Labels)
    requires LocaleOrder(before) && ValidLabels(a) && ValidLabels(b)
    ensures RenderLabels(before, a) == RenderLabels(before, b) <==> AsMap(a) == AsMap(b)
  {
    SameMapSameLabels(a, b);
    if multiset(a) == multiset(b) {
      assert |multiset(a)| == |a| && |multiset(b)| == |b|;
      LabelsDistinguished(before, a);
      Sorting.SortForgetsOrder(before, a, b);
    }
    if RenderLabels(before, a) == RenderLabels(before, b) {
      if a != [] && b != [] {
        RenderedSorted(before, a);
        RenderedSorted(before, b);
        SortedLabelsValid(before, a);
        SortedLabelsValid(before, b);
        ReadJoinBack(Sorting.Sort(before, a));
        ReadJoinBack(Sorting.Sort(before, b));
      } else {
        assert a == [] && b == [];
      }
    }
  }

  // ---------------------------------------------------------- observations

  datatype Observation = Observation(labels: Labels, value: real)

  /** The values observed under a label map, in order. */
  function Matching(os: seq<Observation>, m: map<Str, Str>): seq<real> {
    if os == [] then []
    else
      Matching(os[..|os| - 1], m)
      + if AsMap(os[|os| - 1].labels) == m then [os[|os| - 1].value] else []
  }

  function Total(xs: seq<real>): real {
    if xs == [] then 0.0 else Total(xs[..|xs| - 1]) + xs[|xs| - 1]
  }

  function AtMost(xs: seq<real>, bound: real): nat {
    if xs == [] then 0 else AtMost(xs[..|xs| - 1], bound) + if xs[|xs| - 1] <= bound then 1 else 0
  }

  lemma MatchingSnoc(os: seq<Observation>, o: Observation, m: map<Str, Str>)
    ensures Matching(os + [o], m) == if AsMap(o.labels) == m then Matching(os, m) + [o.value] else Matching(os, m)
  {
    assert (os + [o])[..|os|] == os;
    Parts(Matching(os, m), []);
  }

  lemma TotalSnoc(xs: seq<real>, x: real)
    ensures Total(xs + [x]) == Total(xs) + x
  {
    assert (xs + [x])[..|xs|] == xs;
  }

  lemma AtMostSnoc(xs: seq<real>, x: real, bound: real)
    ensures AtMost(xs + [x], bound) == AtMost(xs, bound) + if x <= bound then 1 else 0
  {
    assert (xs + [x])[..|xs|] == xs;
  }

  /** What a metric holds for each series: the values observed under each label map. */
  ghost predicate Describes<T(!new)>(before: Before, series: map<Str, T>, os: seq<Observation>,
                                     describes: (T, seq<real>) -> bool) {
    forall ls: Labels :: ValidLabels(ls) ==>
      var key, xs := RenderLabels(before, ls), Matching(os, AsMap(ls));
      (key in series <==> xs != []) && (key in series ==> describes(series[key], xs))
  }

  /** One observation changes the one series of its label map. */
  lemma DescribesSnoc<T(!new)>(before: Before, series: map<Str, T>, os: seq<Observation>, o: Observation, entry: T,
                               describes: (T, seq<real>) -> bool)
    requires LocaleOrder(before) && ValidLabels(o.labels) && Describes(before, series, os, describes)
    requires describes(entry, Matching(os, AsMap(o.labels)) + [o.value])
    ensures Describes(before, series[RenderLabels(before, o.labels) := entry], os + [o], describes)
  {
    forall ls: Labels | ValidLabels(ls)
      ensures var key, xs := RenderLabels(before, ls), Matching(os + [o], AsMap(ls));
        var after := series[RenderLabels(before, o.labels) := entry];
        (key in after <==> xs != []) && (key in after ==> describes(after[key], xs))
    {
      SeriesKeysAgree(before, ls, o.labels);
      MatchingSnoc(os, o, AsMap(ls));
    }
  }

  /** What a metric holds, at one label set. */
  lemma Described<T(!new)>(before: Before, series: map<Str, T>, os: seq<Observation>,
                           describes: (T, seq<real>) -> bool, ls: Labels)
    requires Describes(before, series, os, describes) && ValidLabels(ls)
    ensures var key, xs := RenderLabels(before, ls), Matching(os, AsMap(ls));
      (key in series <==> xs != []) && (key in series ==> describes(series[key], xs))
  {
  }

  // ---------------------------------------------------------------- counter

  datatype Entry = Entry(labels: Labels, value: real)

  predicate IsTotal(e: Entry, xs: seq<real>) { e.value == Total(xs) }

  function Increased(values: map<Str, Entry>, key: Str, labels: Labels, amount: real): Entry {
    if key in values then values[key].(value := values[key].value + amount) else Entry(labels, amount)
  }

  lemma IncreasedTotals(before: Before, values: map<Str, Entry>, os: seq<Observation>, labels: Labels, amount: real)
    requires Describes(before, values, os, IsTotal) && ValidLabels(labels)
    ensures IsTotal(Increased(values, RenderLabels(before, labels), labels, amount),
                    Matching(os, AsMap(labels)) + [amount])
  {
    Described(before, values, os, IsTotal, labels);
    TotalSnoc(Matching(os, AsMap(labels)), amount);
  }

  class Counter {
    const before: Before
    var values: map<Str, Entry>
    ghost var history: seq<Observation>

    ghost predicate Valid()
      reads this
    {
      LocaleOrder(before) && Describes(before, values, history, IsTotal)
    }

    constructor (before: Before)
      requires LocaleOrder(before)
      ensures Valid() && history == []
    {
      this.before := before;
      values, history := map[], [];
    }

    /** False is the RangeError. */
    method Inc(labels: Labels, amount: real) returns (ok: bool)
      requires Valid() && ValidLabels(labels)
      modifies this
      ensures Valid() && (ok <==> amount >= 0.0)
      ensures history == if ok then old(history) + [Observation(labels, amount)] else old(history)
      ensures !ok ==> values == old(values)
    {
      if amount < 0.0 { return false; }
      var key := RenderLabels(before, labels);
      var entry := Increased(values, key, labels, amount);
      IncreasedTotals(before, values, history, labels, amount);
      DescribesSnoc(before, values, history, Observation(labels, amount), entry, IsTotal);
      values := values[key := entry];
      history := history + [Observation(labels, amount)];
      return true;
    }

    /** The sum of all increments under the same label map. */
    method Get(labels: Labels) returns (value: real)
      requires Valid() && ValidLabels(labels)
      ensures value == Total(Matching(history, AsMap(labels)))
    {
      var key := RenderLabels(before, labels);
      value := if key in values then values[key].value else 0.0;
    }
  }

  // ------------------------------------------------------------------ gauge

  predicate IsLatest(e: Entry, xs: seq<real>) { xs != [] && e.value == xs[|xs| - 1] }

  class Gauge {
    const before: Before
    var values: map<Str, Entry>
    ghost var history: seq<Observation>

    ghost predicate Valid()
      reads this
    {
      LocaleOrder(before) && Describes(before, values, history, IsLatest)
    }

    constructor (before: Before)
      requires LocaleOrder(before)
      ensures Valid() && history == []
    {
      this.before := before;
      values, history := map[], [];
    }

    method Set(value: real, labels: Labels)
      requires Valid() && ValidLabels(labels)
      modifies this
      ensures Valid() && history == old(history) + [Observation(labels, value)]
    {
      DescribesSnoc(before, values, history, Observation(labels, value), Entry(labels, value), IsLatest);
      values := values[RenderLabels(before, labels) := Entry(labels, value)];
      history := history + [Observation(labels, value)];
    }

    /** The last value set under the same label map. */
    method Get(labels: Labels) returns (value: Option<real>)
      requires Valid() && ValidLabels(labels)
      ensures var xs := Matching(history, AsMap(labels)); value == if xs == [] then None else Some(xs[|xs| - 1])
    {
      var key := RenderLabels(before, labels);
      value := if key in values then Some(values[key].value) else None;
    }
  }

  // -------------------------------------------------------------- histogram

  predicate Below(a: real, b: real) { a < b }

  /** The bounds in order, None for the error on a duplicate. */
  function SortedBounds(bounds: seq<real>): Option<seq<real>> {
    var sorted := Sorting.Sort(Below, bounds);
    if exists i :: 0 < i < |sorted| && sorted[i] == sorted[i - 1] then None else Some(sorted)
  }

  predicate Increasing(bounds: seq<real>) { forall i, j :: 0 <= i < j < |bounds| ==> bounds[i] < bounds[j] }

  /** Neighbours suffice: the check accepts exactly the lists without duplicates, and leaves them
      strictly increasing. */
  lemma BoundsAccepted(bounds: seq<real>)
    ensures SortedBounds(bounds).Some? <==> Sorting.Distinct(bounds)
    ensures SortedBounds(bounds).Some? ==>
      Increasing(SortedBounds(bounds).value) && multiset(SortedBounds(bounds).value) == multiset(bounds)
  {
    var sorted := Sorting.Sort(Below, bounds);
    Sorting.SortSorted(Below, bounds);
    if Sorting.Distinct(bounds) {
      Sorting.SortDistinct(Below, bounds);
    }
    if SortedBounds(bounds).Some? {
      NeighboursApart(sorted);
      DistinctByCount(sorted);
      DistinctBack(bounds, sorted);
    }
  }

  lemma NeighboursApart(s: seq<real>)
    requires Sorting.Sorted(Below, s) && forall i :: 0 < i < |s| ==> s[i] != s[i - 1]
    ensures Increasing(s)
  {
    forall i, j | 0 <= i < j < |s| ensures s[i] < s[j] {
      assert !Below(s[i + 1], s[i]) && s[i + 1] != s[i];
      assert i + 1 < j ==> !Below(s[j], s[i + 1]);
    }
  }

  lemma DistinctByCount(s: seq<real>)
    requires Increasing(s)
    ensures forall x :: multiset(s)[x] <= 1
  {
    forall x ensures multiset(s)[x] <= 1 { CountDistinct(s, x); }
  }

  lemma DistinctBack(a: seq<real>, b: seq<real>)
    requires multiset(a) == multiset(b) && forall x :: multiset(b)[x] <= 1
    ensures Sorting.Distinct(a)
  {
    forall i, j | 0 <= i < j < |a| ensures a[i] != a[j] {
      var front, back := a[..j], a[j..];
      assert a == front + back;
      assert front[i] == a[i] && back[0] == a[j];
      assert a[i] in multiset(front) && a[j] in multiset(back);
      assert multiset(a) == multiset(front) + multiset(back);
      assert multiset(a)[a[i]] == multiset(front)[a[i]] + multiset(back)[a[i]];
      assert multiset(b)[a[i]] <= 1;
    }
  }

  datatype Series = Series(labels: Labels, counts: seq<nat>, sum: real, count: nat)

  /** What a histogram promises of a series. */
  predicate Summarises(bounds: seq<real>, s: Series, xs: seq<real>) {
    && s.sum == Total(xs) && s.count == |xs| && |s.counts| == |bounds|
    && forall i :: 0 <= i < |bounds| ==> s.counts[i] == AtMost(xs, bounds[i])
  }

  function Summary(bounds: seq<real>): (Series, seq<real>) -> bool { (s, xs) => Summarises(bounds, s, xs) }

  function Opened(series: map<Str, Series>, key: Str, labels: Labels, bounds: seq<real>): Series {
    if key in series then series[key] else Series(labels, seq(|bounds|, _ => 0), 0.0, 0)
  }

  lemma OpenedSummarises(before: Before, bounds: seq<real>, series: map<Str, Series>, os: seq<Observation>,
                         labels: Labels)
    requires Describes(before, series, os, Summary(bounds)) && ValidLabels(labels)
    ensures Summarises(bounds, Opened(series, RenderLabels(before, labels), labels, bounds),
                       Matching(os, AsMap(labels)))
  {
    Described(before, series, os, Summary(bounds), labels);
  }

  /** The summary of a series after one more observation. */
  function Grown(s: Series, counts: seq<nat>, value: real): Series {
    s.(counts := counts, sum := s.sum + value, count := s.count + 1)
  }

  lemma GrownSummarises(bounds: seq<real>, s: Series, xs: seq<real>, counts: seq<nat>, value: real)
    requires Summarises(bounds, s, xs)
    requires |counts| == |bounds| && forall i :: 0 <= i < |bounds| ==> counts[i] == AtMost(xs + [value], bounds[i])
    ensures Summary(bounds)(Grown(s, counts, value), xs + [value])
  {
    TotalSnoc(xs, value);
  }

  class Histogram {
    const before: Before
    const buckets: seq<real>
    var series: map<Str, Series>
    ghost var history: seq<Observation>

    ghost predicate Valid()
      reads this
    {
      LocaleOrder(before) && Increasing(buckets) && Describes(before, series, history, Summary(buckets))
    }

    constructor (before: Before, bounds: seq<real>)
      requires LocaleOrder(before) && SortedBounds(bounds).Some?
      ensures Valid() && history == [] && buckets == SortedBounds(bounds).value
    {
      BoundsAccepted(bounds);
      this.before := before;
      this.buckets := SortedBounds(bounds).value;
      series, history := map[], [];
    }

    method Observe(value: real, labels: Labels)
      requires Valid() && ValidLabels(labels)
      modifies this
      ensures Valid() && history == old(history) + [Observation(labels, value)]
    {
      var key := RenderLabels(before, labels);
      var entry := Opened(series, key, labels, buckets);
      ghost var xs := Matching(history, AsMap(labels));
      OpenedSummarises(before, buckets, series, history, labels);
      var counts := Bump(buckets, entry.counts, value, xs);
      GrownSummarises(buckets, entry, xs, counts, value);
      DescribesSnoc(before, series, history, Observation(labels, value), Grown(entry, counts, value), Summary(buckets));
      series := series[key := Grown(entry, counts, value)];
      history := history + [Observation(labels, value)];
    }

    /** A series as it is reported. */
    method Get(labels: Labels) returns (r: Option<Series>)
      requires Valid() && ValidLabels(labels)
      ensures var xs := Matching(history, AsMap(labels));
        (r.None? <==> xs == []) && (r.Some? ==> Summarises(buckets, r.value, xs))
    {
      var key := RenderLabels(before, labels);
      r := if key in series then Some(series[key]) else None;
    }
  }

  /** The bucket loop: an observation lands in its own bucket and in every wider one. */
  method Bump(bounds: seq<real>, before: seq<nat>, value: real, ghost xs: seq<real>) returns (counts: seq<nat>)
    requires |before| == |bounds| && forall i :: 0 <= i < |bounds| ==> before[i] == AtMost(xs, bounds[i])
    ensures |counts| == |bounds| && forall i :: 0 <= i < |bounds| ==> counts[i] == AtMost(xs + [value], bounds[i])
  {
    counts := before;
    var i := 0;
    while i < |bounds|
      invariant i <= |bounds| == |counts|
      invariant forall k :: 0 <= k < i ==> counts[k] == AtMost(xs + [value], bounds[k])
      invariant forall k :: i <= k < |bounds| ==> counts[k] == before[k]
    {
      AtMostSnoc(xs, value, bounds[i]);
      if value <= bounds[i] { counts := counts[i := counts[i] + 1]; }
      i := i + 1;
    }
  }

  lemma {:induction false} WiderCountsMore(xs: seq<real>, a: real, b: real)
    requires a <= b
    ensures AtMost(xs, a) <= AtMost(xs, b) <= |xs|
  {
    if xs != [] { WiderCountsMore(xs[..|xs| - 1], a, b); }
  }

  /** Reported bucket counts never decrease towards wider buckets and never exceed the total. */
  lemma BucketsCumulative(bounds: seq<real>, s: Series, xs: seq<real>, i: nat, j: nat)
    requires Increasing(bounds) && Summarises(bounds, s, xs) && i <= j < |bounds|
    ensures s.counts[i] <= s.counts[j] <= s.count
  {
    WiderCountsMore(xs, bounds[i], bounds[j]);
  }
}
