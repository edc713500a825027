/** Stable sorting by a comparator, as Array.prototype.sort does it: the result is fixed by the
    comparator and stability, whatever algorithm the engine uses. */
module Sorting {

  /** The comparator contract sort needs: a strict weak order. */
  ghost predicate StrictWeak<T(!new)>(before: (T, T) -> bool) {
    && (forall a :: !before(a, a))
    && (forall a, b, c :: before(a, b) && before(b, c) ==> before(a, c))
    && (forall a, b, c :: !before(a, b) && !before(b, c) ==> !before(a, c))
  }

  ghost predicate Sorted<T(!new)>(before: (T, T) -> bool, s: seq<T>) {
    forall i, j :: 0 <= i < j < |s| ==> !before(s[j], s[i])
  }

  /** Distinct elements of `s` are never tied. */
  ghost predicate Distinguishes<T(!new)>(before: (T, T) -> bool, s: seq<T>) {
    forall x, y :: x in s && y in s && x != y ==> before(x, y) || before(y, x)
  }

  /** Puts `x` in front of the first element that is not before it, so that ties keep their order. */
  function Insert<T>(before: (T, T) -> bool, x: T, s: seq<T>): (r: seq<T>)
    ensures multiset(r) == multiset(s) + multiset{x}
    ensures |r| == |s| + 1
  {
    if s == [] || !before(s[0], x) then [x] + s
    else
      assert s == [s[0]] + s[1..];
      [s[0]] + Insert(before, x, s[1..])
  }

  function Sort<T>(before: (T, T) -> bool, s: seq<T>): (r: seq<T>)
    ensures multiset(r) == multiset(s)
    ensures |r| == |s|
  {
    if s == [] then []
    else
      assert s == [s[0]] + s[1..];
      Insert(before, s[0], Sort(before, s[1..]))
  }

  lemma InMultiset<T>(s: seq<T>, t: seq<T>)
    requires multiset(s) == multiset(t)
    ensures forall x :: x in s <==> x in t
  {
    forall x ensures x in s <==> x in t {
      assert x in s <==> x in multiset(s);
      assert x in t <==> x in multiset(t);
    }
  }

  lemma {:induction false} InsertSorted<T(!new)>(before: (T, T) -> bool, x: T, s: seq<T>)
    requires StrictWeak(before) && Sorted(before, s)
    ensures Sorted(before, Insert(before, x, s))
  {
    var r := Insert(before, x, s);
    if s == [] || !before(s[0], x) {
      forall i, j | 0 <= i < j < |r| ensures !before(r[j], r[i]) {
        if i == 0 && j > 1 { assert !before(s[j - 1], s[0]); }
      }
    } else {
      InsertSorted(before, x, s[1..]);
      var t := Insert(before, x, s[1..]);
      forall j | 0 <= j < |t| ensures !before(t[j], s[0]) {
        assert t[j] in multiset(t);
        assert t[j] == x || t[j] in s[1..];
      }
    }
  }

  lemma {:induction false} SortSorted<T(!new)>(before: (T, T) -> bool, s: seq<T>)
    requires StrictWeak(before)
    ensures Sorted(before, Sort(before, s))
  {
    if s != [] {
      SortSorted(before, s[1..]);
      InsertSorted(before, s[0], Sort(before, s[1..]));
    }
  }

  lemma TailMultisets<T>(a: seq<T>, b: seq<T>)
    requires a != [] && b != [] && a[0] == b[0] && multiset(a) == multiset(b)
    ensures multiset(a[1..]) == multiset(b[1..])
  {
    assert a == [a[0]] + a[1..] && b == [b[0]] + b[1..];
    assert multiset(a) == multiset{a[0]} + multiset(a[1..]);
    assert multiset(b) == multiset{b[0]} + multiset(b[1..]);
    assert multiset(a[1..]) == multiset(a) - multiset{a[0]};
  }

  lemma HeadsAgree<T(!new)>(before: (T, T) -> bool, a: seq<T>, b: seq<T>)
    requires Sorted(before, a) && Sorted(before, b) && Distinguishes(before, a)
    requires a != [] && b != [] && multiset(a) == multiset(b)
    ensures a[0] == b[0]
  {
    InMultiset(a, b);
    assert a[0] in a && b[0] in b;
    assert a[0] in b && b[0] in a;
  }

  /** A multiset without ties has one sorted arrangement. */
  lemma {:induction false} SortedUnique<T(!new)>(before: (T, T) -> bool, a: seq<T>, b: seq<T>)
    requires Sorted(before, a) && Sorted(before, b) && Distinguishes(before, a)
    requires multiset(a) == multiset(b)
    ensures a == b
  {
    assert |multiset(a)| == |a| && |multiset(b)| == |b|;
    if a != [] {
      HeadsAgree(before, a, b);
      TailMultisets(a, b);
      SortedUnique(before, a[1..], b[1..]);
      assert a == [a[0]] + a[1..] && b == [b[0]] + b[1..];
    }
  }

  /** Sorting forgets the order of its input. */
  lemma SortForgetsOrder<T(!new)>(before: (T, T) -> bool, a: seq<T>, b: seq<T>)
    requires StrictWeak(before) && Distinguishes(before, a) && multiset(a) == multiset(b)
    ensures Sort(before, a) == Sort(before, b)
  {
    SortSorted(before, a);
    SortSorted(before, b);
    InMultiset(a, Sort(before, a));
    SortedUnique(before, Sort(before, a), Sort(before, b));
  }

  predicate Distinct<T(==)>(s: seq<T>) {
    forall i, j :: 0 <= i < j < |s| ==> s[i] != s[j]
  }

  lemma {:induction false} InsertDistinct<T>(before: (T, T) -> bool, x: T, s: seq<T>)
    requires x !in s && Distinct(s)
    ensures Distinct(Insert(before, x, s))
  {
    if s == [] || !before(s[0], x) {
      assert Insert(before, x, s) == [x] + s;
    } else {
      InsertDistinct(before, x, s[1..]);
      var t := Insert(before, x, s[1..]);
      forall j | 0 <= j < |t| ensures t[j] != s[0] {
        assert t[j] in multiset(t);
        assert t[j] == x || t[j] in s[1..];
      }
      assert Insert(before, x, s) == [s[0]] + t;
    }
  }

  lemma {:induction false} SortDistinct<T>(before: (T, T) -> bool, s: seq<T>)
    requires Distinct(s)
    ensures Distinct(Sort(before, s))
  {
    if s != [] {
      SortDistinct(before, s[1..]);
      var t := Sort(before, s[1..]);
      InMultiset(t, s[1..]);
      assert s[0] !in s[1..];
      InsertDistinct(before, s[0], t);
    }
  }
}
