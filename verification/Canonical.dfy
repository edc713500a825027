/** RFC 8785 canonicalization as the receipts package does it. */
module Canonical {
  import opened Text
  import opened Json
  import Sorting

  predicate MemberBefore(m: Member, n: Member) { Less(m.key, n.key) }

  function Find(ms: seq<Member>, k: Str): (r: Option<nat>)
    ensures r.Some? ==> r.value < |ms| && ms[r.value].key == k
    ensures r.None? ==> forall i :: 0 <= i < |ms| ==> ms[i].key != k
  {
    if ms == [] then None
    else if ms[0].key == k then Some(0)
    else match Find(ms[1..], k)
         case None => None
         case Some(i) => Some(i + 1)
  }

  lemma FindUnique(ms: seq<Member>, i: nat)
    requires i < |ms| && UniqueKeys(ms)
    ensures Find(ms, ms[i].key) == Some(i)
  {
  }

  // ----------------------------------------------------------- looking up members

  /** The value of a property, None if it is absent. */
  function Field(ms: seq<Member>, key: Str): Option<Json> {
    match Find(ms, key)
    case None => None
    case Some(i) => Some(ms[i].value)
  }

  lemma {:induction false} FieldInFront(a: seq<Member>, b: seq<Member>, key: Str)
    ensures Field(a + b, key) == if Field(a, key).Some? then Field(a, key) else Field(b, key)
  {
    Parts(a, b);
    if a != [] { FieldInFront(a[1..], b, key); }
  }

  /** A member is found if no earlier key has its length and its first letter. */
  lemma {:induction false} FieldAt(ms: seq<Member>, i: nat)
    requires i < |ms| && ms[i].key != []
    requires forall j :: 0 <= j < i ==> ms[j].key != [] && (|ms[j].key| != |ms[i].key| || ms[j].key[0] != ms[i].key[0])
    ensures Field(ms, ms[i].key) == Some(ms[i].value)
  {
    if i > 0 {
      assert ms[1..][i - 1] == ms[i];
      FieldAt(ms[1..], i - 1);
    }
  }

  // ------------------------------------------- the receipts package's serializer

  /** None stands for the CanonicalizationError of an unserializable part. */
  function Serialize(v: Json): Option<Str>
    decreases v, 1
  {
    match v
    case Foreign => None
    case Arr(items) =>
      (match SerializeItems(items)
       case None => None
       case Some(t) => Some(['[' as int] + t + [']' as int]))
    case Obj(ms) =>
      (match SerializeKeys(ms, Sorting.Sort(Less, Keys(ms)))
       case None => None
       case Some(t) => Some(['{' as int] + t + ['}' as int]))
    case _ => Some(Emit(v))
  }

  function SerializeItems(items: seq<Json>): Option<Str>
    decreases items, 0
  {
    if items == [] then Some([])
    else
      match (Serialize(items[0]), if |items| == 1 then Some([]) else SerializeItems(items[1..]))
      case (Some(t), Some(more)) => Some(t + (if |items| == 1 then [] else [',' as int] + more))
      case _ => None
  }

  /** The members of the object under the given keys, looked up one by one. */
  function SerializeKeys(ms: seq<Member>, keys: seq<Str>): Option<Str>
    decreases ms, |keys|
  {
    if keys == [] then Some([])
    else
      match Find(ms, keys[0])
      case None => None
      case Some(i) =>
        match (Serialize(ms[i].value), if |keys| == 1 then Some([]) else SerializeKeys(ms, keys[1..]))
        case (Some(t), Some(more)) =>
          Some(Quote(keys[0]) + [':' as int] + t + (if |keys| == 1 then [] else [',' as int] + more))
        case _ => None
  }

  // --------------------------------------------------- the normal form of a value

  /** The value with the members of every object in key order. */
  function Canon(v: Json): Json
    decreases v, 1
  {
    match v
    case Arr(items) => Arr(CanonItems(items))
    case Obj(ms) => Obj(Sorting.Sort(MemberBefore, CanonMembers(ms)))
    case _ => v
  }

  function CanonItems(items: seq<Json>): (r: seq<Json>)
    ensures |r| == |items| && forall i :: 0 <= i < |r| ==> r[i] == Canon(items[i])
    decreases items, 0
  {
    if items == [] then [] else [Canon(items[0])] + CanonItems(items[1..])
  }

  function CanonMember(m: Member): Member
    decreases m, 2
  {
    Member(m.key, Canon(m.value))
  }

  function CanonMembers(ms: seq<Member>): (r: seq<Member>)
    ensures |r| == |ms| && forall i :: 0 <= i < |r| ==> r[i] == CanonMember(ms[i])
    decreases ms, 0
  {
    if ms == [] then [] else [CanonMember(ms[0])] + CanonMembers(ms[1..])
  }

  lemma {:induction false} CanonInsert(m: Member, ms: seq<Member>)
    ensures Sorting.Insert(MemberBefore, CanonMember(m), CanonMembers(ms))
         == CanonMembers(Sorting.Insert(MemberBefore, m, ms))
  {
    if ms == [] || !MemberBefore(ms[0], m) {
    } else {
      CanonInsert(m, ms[1..]);
      assert CanonMembers(ms)[1..] == CanonMembers(ms[1..]);
    }
  }

  /** Sorting looks at keys only, so it does not matter whether the values are normal yet. */
  lemma {:induction false} CanonSort(ms: seq<Member>)
    ensures Sorting.Sort(MemberBefore, CanonMembers(ms)) == CanonMembers(Sorting.Sort(MemberBefore, ms))
  {
    if ms != [] {
      CanonSort(ms[1..]);
      CanonInsert(ms[0], Sorting.Sort(MemberBefore, ms[1..]));
      assert CanonMembers(ms)[1..] == CanonMembers(ms[1..]);
    }
  }

  lemma KeysCons(m: Member, ms: seq<Member>)
    ensures Keys([m] + ms) == [m.key] + Keys(ms)
  {
  }

  lemma {:induction false} KeysInsert(m: Member, ms: seq<Member>)
    ensures Keys(Sorting.Insert(MemberBefore, m, ms)) == Sorting.Insert(Less, m.key, Keys(ms))
  {
    if ms == [] || !MemberBefore(ms[0], m) {
      KeysCons(m, ms);
    } else {
      KeysInsert(m, ms[1..]);
      KeysCons(ms[0], Sorting.Insert(MemberBefore, m, ms[1..]));
      assert Keys(ms)[1..] == Keys(ms[1..]);
    }
  }

  lemma SortKeysStep(k: Str, ks: seq<Str>)
    ensures Sorting.Sort(Less, [k] + ks) == Sorting.Insert(Less, k, Sorting.Sort(Less, ks))
  {
    Parts([k], ks);
  }

  lemma KeysTail(ms: seq<Member>)
    requires ms != []
    ensures Keys(ms) == [ms[0].key] + Keys(ms[1..])
  {
  }

  lemma {:induction false} KeysSort(ms: seq<Member>)
    ensures Keys(Sorting.Sort(MemberBefore, ms)) == Sorting.Sort(Less, Keys(ms))
  {
    if ms == [] {
      assert Keys(ms) == [];
    } else {
      KeysSort(ms[1..]);
      KeysInsert(ms[0], Sorting.Sort(MemberBefore, ms[1..]));
      KeysTail(ms);
      SortKeysStep(ms[0].key, Keys(ms[1..]));
    }
  }

  lemma {:induction false} PureCanon(v: Json)
    ensures Pure(Canon(v)) <==> Pure(v)
  {
    match v
    case Arr(items) =>
      forall i | 0 <= i < |items| ensures Pure(Canon(items[i])) <==> Pure(items[i]) { PureCanon(items[i]); }
    case Obj(ms) =>
      var cm := CanonMembers(ms);
      var sm := Sorting.Sort(MemberBefore, cm);
      Sorting.InMultiset(sm, cm);
      forall i | 0 <= i < |ms| ensures Pure(cm[i].value) <==> Pure(ms[i].value) { PureCanon(ms[i].value); }
      if Pure(v) {
        forall i | 0 <= i < |sm| ensures Pure(sm[i].value) { assert sm[i] in cm; }
      } else {
        var i :| 0 <= i < |ms| && !Pure(ms[i].value);
        assert cm[i] in sm;
      }
    case _ =>
  }

  // ------------------------------------------------ serializer == text of the normal form

  lemma {:induction false} SerializeItemsIsEmit(items: seq<Json>)
    requires forall i :: 0 <= i < |items| ==> WellFormed(items[i])
    ensures SerializeItems(items) ==
      if forall i :: 0 <= i < |items| ==> Pure(items[i]) then Some(EmitItems(CanonItems(items))) else None
    decreases items, 0
  {
    if items != [] {
      SerializeIsEmit(items[0]);
      SerializeItemsIsEmit(items[1..]);
      assert CanonItems(items)[1..] == CanonItems(items[1..]);
    }
  }

  lemma {:induction false} SerializeKeysIsEmit(ms: seq<Member>, s: seq<Member>)
    requires UniqueKeys(ms) && forall i :: 0 <= i < |ms| ==> WellFormed(ms[i].value)
    requires forall m :: m in s ==> m in ms
    ensures SerializeKeys(ms, Keys(s)) ==
      if forall i :: 0 <= i < |s| ==> Pure(s[i].value) then Some(EmitMembers(CanonMembers(s))) else None
    decreases ms, |s|
  {
    if s != [] {
      assert s[0] in ms;
      var i :| 0 <= i < |ms| && ms[i] == s[0];
      FindUnique(ms, i);
      SerializeIsEmit(ms[i].value);
      SerializeKeysIsEmit(ms, s[1..]);
      assert Keys(s)[1..] == Keys(s[1..]);
      assert CanonMembers(s)[1..] == CanonMembers(s[1..]);
    }
  }

  lemma {:induction false} SerializeObjIsEmit(ms: seq<Member>)
    requires WellFormed(Obj(ms))
    ensures Serialize(Obj(ms)) == if Pure(Obj(ms)) then Some(Emit(Canon(Obj(ms)))) else None
    decreases ms, |ms| + 1
  {
    var s := Sorting.Sort(MemberBefore, ms);
    Sorting.InMultiset(s, ms);
    KeysSort(ms);
    CanonSort(ms);
    SerializeKeysIsEmit(ms, s);
    PurePermuted(ms, s);
  }

  lemma PurePermuted(ms: seq<Member>, s: seq<Member>)
    requires multiset(ms) == multiset(s)
    ensures Pure(Obj(ms)) <==> forall i :: 0 <= i < |s| ==> Pure(s[i].value)
  {
    Sorting.InMultiset(ms, s);
    if Pure(Obj(ms)) {
      forall i | 0 <= i < |s| ensures Pure(s[i].value) { assert s[i] in ms; }
    } else {
      var i :| 0 <= i < |ms| && !Pure(ms[i].value);
      assert ms[i] in s;
    }
  }

  /** The serializer succeeds exactly on values that are JSON throughout, and then writes the
      normal form in order. */
  lemma {:induction false} SerializeIsEmit(v: Json)
    requires WellFormed(v)
    ensures Serialize(v) == if Pure(v) then Some(Emit(Canon(v))) else None
    decreases v, 1
  {
    match v
    case Arr(items) => SerializeItemsIsEmit(items);
    case Obj(ms) => SerializeObjIsEmit(ms);
    case _ =>
  }

  // --------------------------------------------------------------- sameness

  /** Equality of JSON values: member order is irrelevant, everything else counts. */
  ghost predicate Same(v: Json, w: Json)
    decreases v
  {
    match (v, w)
    case (Arr(xs), Arr(ys)) => |xs| == |ys| && forall i :: 0 <= i < |xs| ==> Same(xs[i], ys[i])
    case (Obj(ms), Obj(ns)) =>
      && (forall i :: 0 <= i < |ms| ==>
            var f := Find(ns, ms[i].key); f.Some? && Same(ms[i].value, ns[f.value].value))
      && (forall j :: 0 <= j < |ns| ==> Find(ms, ns[j].key).Some?)
    case (Arr(_), _) => false
    case (Obj(_), _) => false
    case _ => v == w
  }

  lemma MemberOrder()
    ensures Sorting.StrictWeak(MemberBefore)
  {
    LessOrders();
  }

  lemma {:induction false} UniqueCount(ms: seq<Member>, m: Member)
    requires UniqueKeys(ms)
    ensures multiset(ms)[m] == if m in ms then 1 else 0
  {
    if ms != [] {
      assert ms == [ms[0]] + ms[1..];
      UniqueCount(ms[1..], m);
      assert multiset(ms) == multiset{ms[0]} + multiset(ms[1..]);
    }
  }

  lemma UniqueDistinguishes(ms: seq<Member>)
    requires UniqueKeys(ms)
    ensures Sorting.Distinguishes(MemberBefore, ms)
  {
    forall x, y | x in ms && y in ms && x != y ensures MemberBefore(x, y) || MemberBefore(y, x) {
      LessTotal(x.key, y.key);
    }
  }

  lemma SameMembersSameSort(a: seq<Member>, b: seq<Member>)
    requires UniqueKeys(a) && UniqueKeys(b)
    requires forall m :: m in a <==> m in b
    ensures Sorting.Sort(MemberBefore, a) == Sorting.Sort(MemberBefore, b)
  {
    forall m ensures multiset(a)[m] == multiset(b)[m] {
      UniqueCount(a, m);
      UniqueCount(b, m);
    }
    assert multiset(a) == multiset(b);
    UniqueDistinguishes(a);
    MemberOrder();
    Sorting.SortForgetsOrder(MemberBefore, a, b);
  }

  lemma {:induction false} SameThenCanon(v: Json, w: Json)
    requires WellFormed(v) && WellFormed(w) && Same(v, w)
    ensures Canon(v) == Canon(w)
    decreases v
  {
    match (v, w)
    case (Arr(xs), Arr(ys)) =>
      forall i | 0 <= i < |xs| ensures Canon(xs[i]) == Canon(ys[i]) { SameThenCanon(xs[i], ys[i]); }
    case (Obj(ms), Obj(ns)) =>
      var cm, cn := CanonMembers(ms), CanonMembers(ns);
      forall i | 0 <= i < |ms| ensures cm[i] in cn && cn[Find(ns, ms[i].key).value] == cm[i] {
        var j := Find(ns, ms[i].key).value;
        SameThenCanon(ms[i].value, ns[j].value);
        assert cn[j] == cm[i];
      }
      forall j | 0 <= j < |ns| ensures cn[j] in cm {
        var i := Find(ms, ns[j].key).value;
        FindUnique(ns, j);
        assert cn[j] == cm[i];
      }
      SameMembersSameSort(cm, cn);
    case _ =>
  }

  lemma {:induction false} CanonThenSameObj(ms: seq<Member>, ns: seq<Member>)
    requires WellFormed(Obj(ms)) && WellFormed(Obj(ns))
    requires forall m :: m in CanonMembers(ms) <==> m in CanonMembers(ns)
    ensures Same(Obj(ms), Obj(ns))
    decreases ms, 0
  {
    var cm, cn := CanonMembers(ms), CanonMembers(ns);
    forall i | 0 <= i < |ms|
      ensures var f := Find(ns, ms[i].key); f.Some? && Same(ms[i].value, ns[f.value].value)
    {
      assert cm[i] in cn;
      var j :| 0 <= j < |cn| && cn[j] == cm[i];
      FindUnique(ns, j);
      CanonThenSame(ms[i].value, ns[j].value);
    }
    forall j | 0 <= j < |ns| ensures Find(ms, ns[j].key).Some? {
      assert cn[j] in cm;
      var i :| 0 <= i < |cm| && cm[i] == cn[j];
    }
  }

  lemma {:induction false} CanonThenSame(v: Json, w: Json)
    requires WellFormed(v) && WellFormed(w) && Canon(v) == Canon(w)
    ensures Same(v, w)
    decreases v, 1
  {
    match (v, w)
    case (Arr(xs), Arr(ys)) =>
      assert |CanonItems(xs)| == |CanonItems(ys)|;
      forall i | 0 <= i < |xs| ensures Same(xs[i], ys[i]) {
        assert CanonItems(xs)[i] == CanonItems(ys)[i];
        CanonThenSame(xs[i], ys[i]);
      }
    case (Obj(ms), Obj(ns)) =>
      Sorting.InMultiset(CanonMembers(ms), CanonMembers(ns));
      CanonThenSameObj(ms, ns);
    case _ =>
  }

  // ----------------------------------------------------------- main results

  /** The canonical text of a well-formed JSON value. */
  function CanonicalText(v: Json): Str {
    Emit(Canon(v))
  }

  /** Equal canonical texts mean equal values up to member order, and conversely. */
  lemma CanonicalTextInjective(v: Json, w: Json)
    requires WellFormed(v) && WellFormed(w) && Pure(v) && Pure(w)
    ensures Serialize(v).Some? && Serialize(w).Some?
    ensures Serialize(v) == Serialize(w) <==> Same(v, w)
  {
    SerializeIsEmit(v);
    SerializeIsEmit(w);
    PureCanon(v);
    PureCanon(w);
    if Serialize(v) == Serialize(w) {
      EmitInjective(Canon(v), Canon(w));
      CanonThenSame(v, w);
    }
    if Same(v, w) { SameThenCanon(v, w); }
  }

  /** Parsing the canonical text gives the value back, members in key order. */
  lemma ParseUndoesSerialize(v: Json)
    requires WellFormed(v) && Pure(v)
    ensures Serialize(v).Some? && Parse(Serialize(v).value) == Some((Canon(v), []))
    ensures WellFormed(Canon(v)) && Ascending(Canon(v)) && Same(Canon(v), v)
  {
    SerializeIsEmit(v);
    PureCanon(v);
    ParseEmit(Canon(v), []);
    Parts(Emit(Canon(v)), []);
    CanonWellFormed(v);
    CanonAscending(v);
    CanonIdempotent(v);
    CanonThenSame(Canon(v), v);
  }

  lemma {:induction false} InsertKeepsUnique(m: Member, s: seq<Member>)
    requires UniqueKeys(s) && forall x :: x in s ==> x.key != m.key
    ensures UniqueKeys(Sorting.Insert(MemberBefore, m, s))
  {
    if s == [] || !MemberBefore(s[0], m) {
    } else {
      InsertKeepsUnique(m, s[1..]);
      var t := Sorting.Insert(MemberBefore, m, s[1..]);
      forall j | 0 <= j < |t| ensures t[j].key != s[0].key {
        assert t[j] in multiset(t);
        assert t[j] == m || t[j] in s[1..];
      }
    }
  }

  lemma {:induction false} SortKeepsUnique(ms: seq<Member>)
    requires UniqueKeys(ms)
    ensures UniqueKeys(Sorting.Sort(MemberBefore, ms))
  {
    if ms != [] {
      SortKeepsUnique(ms[1..]);
      Sorting.InMultiset(Sorting.Sort(MemberBefore, ms[1..]), ms[1..]);
      InsertKeepsUnique(ms[0], Sorting.Sort(MemberBefore, ms[1..]));
    }
  }

  lemma {:induction false} CanonWellFormed(v: Json)
    requires WellFormed(v)
    ensures WellFormed(Canon(v))
  {
    match v
    case Arr(items) =>
      forall i | 0 <= i < |items| ensures WellFormed(Canon(items[i])) { CanonWellFormed(items[i]); }
    case Obj(ms) =>
      var cm := CanonMembers(ms);
      var sm := Sorting.Sort(MemberBefore, cm);
      Sorting.InMultiset(sm, cm);
      SortKeepsUnique(cm);
      forall i | 0 <= i < |sm| ensures WellFormed(sm[i].value) {
        assert sm[i] in cm;
        var j :| 0 <= j < |cm| && cm[j] == sm[i];
        CanonWellFormed(ms[j].value);
      }
    case _ =>
  }

  /** Where two keys first differ the first has the smaller code unit, or it ends. */
  ghost predicate UnitBefore(a: Str, b: Str) {
    exists k: nat :: k <= |a| && k < |b| && a[..k] == b[..k] && (k == |a| || a[k] < b[k])
  }

  lemma UnitBeforeIsLess(a: Str, b: Str)
    ensures UnitBefore(a, b) <==> Less(a, b)
  {
    if k: nat :| k <= |a| && k < |b| && a[..k] == b[..k] && (k == |a| || a[k] < b[k]) { LessAt(a, b, k); }
    LessAt(a, b, Common(a, b));
  }

  ghost predicate KeysAscend(ms: seq<Member>) {
    forall i, j :: 0 <= i < j < |ms| ==> UnitBefore(ms[i].key, ms[j].key)
  }

  ghost predicate Ascending(v: Json) {
    match v
    case Arr(items) => forall i :: 0 <= i < |items| ==> Ascending(items[i])
    case Obj(ms) =>
      && KeysAscend(ms)
      && (forall i :: 0 <= i < |ms| ==> Ascending(ms[i].value))
    case _ => true
  }

  lemma SortAscends(ms: seq<Member>)
    requires UniqueKeys(ms)
    ensures KeysAscend(Sorting.Sort(MemberBefore, ms))
  {
    var s := Sorting.Sort(MemberBefore, ms);
    MemberOrder();
    Sorting.SortSorted(MemberBefore, ms);
    SortKeepsUnique(ms);
    forall i, j | 0 <= i < j < |s| ensures UnitBefore(s[i].key, s[j].key) {
      UnitBeforeIsLess(s[i].key, s[j].key);
      LessTotal(s[i].key, s[j].key);
      assert !MemberBefore(s[j], s[i]);
    }
  }

  lemma {:induction false} CanonAscending(v: Json)
    requires WellFormed(v)
    ensures Ascending(Canon(v))
  {
    match v
    case Arr(items) =>
      forall i | 0 <= i < |items| ensures Ascending(Canon(items[i])) { CanonAscending(items[i]); }
    case Obj(ms) =>
      var cm := CanonMembers(ms);
      var sm := Sorting.Sort(MemberBefore, cm);
      Sorting.InMultiset(sm, cm);
      SortAscends(cm);
      forall i | 0 <= i < |sm| ensures Ascending(sm[i].value) {
        assert sm[i] in cm;
        var j :| 0 <= j < |cm| && cm[j] == sm[i];
        CanonAscending(ms[j].value);
      }
    case _ =>
  }

  lemma {:induction false} CanonIdempotent(v: Json)
    requires WellFormed(v)
    ensures Canon(Canon(v)) == Canon(v)
  {
    match v
    case Arr(items) =>
      forall i | 0 <= i < |items| ensures Canon(Canon(items[i])) == Canon(items[i]) { CanonIdempotent(items[i]); }
      assert CanonItems(CanonItems(items)) == CanonItems(items);
    case Obj(ms) =>
      var cm := CanonMembers(ms);
      var sm := Sorting.Sort(MemberBefore, cm);
      Sorting.InMultiset(sm, cm);
      forall i | 0 <= i < |sm| ensures CanonMember(sm[i]) == sm[i] {
        assert sm[i] in cm;
        var j :| 0 <= j < |cm| && cm[j] == sm[i];
        CanonIdempotent(ms[j].value);
      }
      assert CanonMembers(sm) == sm;
      SortKeepsUnique(cm);
      SameMembersSameSort(cm, sm);
    case _ =>
  }
}
