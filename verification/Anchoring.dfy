/** Hourly anchor batches and the run that commits them. */
module Anchoring {
  import opened Text
  import opened Json
  import opened Hex
  import opened Merkle
  import Sorting

  // ------------------------------------------------------------ one batch

  predicate DigestBefore(a: Str, b: Str) { Less(Lower(a), Lower(b)) }

  datatype Entry = Entry(leafIndex: nat, proof: seq<Str>)

  datatype Batch = Batch(batchId: int, root: Str, entries: map<Str, Entry>)

  /** UTC hour of a time in milliseconds; the quotient rounds down for negative times too. */
  function BatchIdFor(time: int): int { time / 3600000 }

  /** A time belongs to the hour it falls into, from its first millisecond to before the next. */
  lemma BatchIsHour(time: int, id: int)
    ensures BatchIdFor(time) == id <==> id * 60 * 60 * 1000 <= time < (id + 1) * 60 * 60 * 1000
  {
  }

  function LowerAll(ds: seq<Str>): (r: seq<Str>)
    ensures |r| == |ds| && forall i :: 0 <= i < |r| ==> r[i] == Lower(ds[i])
  {
    seq(|ds|, i requires 0 <= i < |ds| => Lower(ds[i]))
  }

  function EntryAt(h: Hash, nodes: seq<Bytes>, i: nat): Entry
    requires i < |nodes|
  {
    Entry(i, WriteAll(Path(h, nodes, i)))
  }

  function EntriesOf(h: Hash, nodes: seq<Bytes>): (r: seq<Entry>)
    ensures |r| == |nodes| && forall i :: 0 <= i < |r| ==> r[i] == EntryAt(h, nodes, i)
  {
    seq(|nodes|, i requires 0 <= i < |nodes| => EntryAt(h, nodes, i))
  }

  /** The map after the first n assignments; a repeated key keeps its last entry. */
  function Assigned(keys: seq<Str>, entries: seq<Entry>, n: nat): map<Str, Entry>
    requires n <= |keys| == |entries|
  {
    if n == 0 then map[] else Assigned(keys, entries, n - 1)[keys[n - 1] := entries[n - 1]]
  }

  /** Every key is bound, to the entry of some position with that key. */
  lemma {:induction false} AssignedMeans(keys: seq<Str>, entries: seq<Entry>, n: nat, k: nat) returns (i: nat)
    requires k < n <= |keys| == |entries|
    ensures i < n && keys[i] == keys[k] && keys[k] in Assigned(keys, entries, n)
    ensures Assigned(keys, entries, n)[keys[k]] == entries[i]
  {
    if keys[k] == keys[n - 1] { i := n - 1; } else { i := AssignedMeans(keys, entries, n - 1, k); }
  }

  /** None stands for the errors thrown on an empty batch or an unreadable digest. */
  function AnchorBatch(h: Hash, batchId: int, digests: seq<Str>): Option<Batch> {
    var sorted := Sorting.Sort(DigestBefore, digests);
    match ReadAll(sorted)
    case None => None
    case Some(nodes) =>
      if nodes == [] then None
      else Some(Batch(batchId, ToHex(Root(h, nodes)), Assigned(LowerAll(sorted), EntriesOf(h, nodes), |sorted|)))
  }

  method BuildAnchorBatch(h: Hash, batchId: int, digests: seq<Str>) returns (r: Option<Batch>)
    ensures r == AnchorBatch(h, batchId, digests)
  {
    if digests == [] { return None; }
    var sorted := Sorting.Sort(DigestBefore, digests);
    var tree := BuildTree(h, sorted);
    if tree.None? { return None; }
    var entries := FillEntries(h, tree.value, LowerAll(sorted));
    return Some(Batch(batchId, tree.value.root, entries));
  }

  /** The forEach of buildAnchorBatch: one entry per leaf, then one map assignment per leaf. */
  method FillEntries(h: Hash, tree: Tree, keys: seq<Str>) returns (entries: map<Str, Entry>)
    requires Built(h, tree) && |keys| == |tree.leaves|
    ensures entries == Assigned(keys, EntriesOf(h, tree.levels[0]), |keys|)
  {
    ghost var nodes := tree.levels[0];
    entries := map[];
    var index := 0;
    while index < |keys|
      invariant index <= |keys| == |nodes|
      invariant entries == Assigned(keys, EntriesOf(h, nodes), index)
    {
      entries := AddEntry(h, tree, nodes, keys, index, entries);
      index := index + 1;
    }
  }

  method AddEntry(h: Hash, tree: Tree, ghost nodes: seq<Bytes>, keys: seq<Str>, index: nat, before: map<Str, Entry>)
    returns (after: map<Str, Entry>)
    requires Built(h, tree) && nodes == tree.levels[0] && index < |keys| == |tree.leaves| == |nodes|
    requires before == Assigned(keys, EntriesOf(h, nodes), index)
    ensures after == Assigned(keys, EntriesOf(h, nodes), index + 1)
  {
    var proof := GetProof(h, tree, index);
    after := before[keys[index] := Entry(index, proof.value)];
  }

  ghost predicate AllDigests(ds: seq<Str>) { forall i :: 0 <= i < |ds| ==> IsDigest(ds[i]) }

  lemma SortedDigests(ds: seq<Str>)
    requires AllDigests(ds)
    ensures AllDigests(Sorting.Sort(DigestBefore, ds)) && ReadAll(Sorting.Sort(DigestBefore, ds)).Some?
  {
    var s := Sorting.Sort(DigestBefore, ds);
    Sorting.InMultiset(s, ds);
    forall i | 0 <= i < |s| ensures IsDigest(s[i]) && FromHex(s[i]).Some? {
      assert s[i] in ds;
      DigestReads(s[i]);
    }
  }

  lemma TwinVerifies(h: Hash, nodes: seq<Bytes>, i: nat, leaf: Str, d: Str)
    requires i < |nodes| && Lower(leaf) == Lower(d) && FromHex(leaf) == Some(nodes[i])
    ensures VerifyProof(h, d, WriteAll(Path(h, nodes, i)), ToHex(Root(h, nodes))) == Some(true)
  {
    LowerReads(leaf);
    LowerReads(d);
    PathProves(h, nodes, i);
    ReadWriteAll(Path(h, nodes, i));
  }

  /** A non-empty list of digests always makes a batch. */
  lemma DigestsMakeBatch(h: Hash, batchId: int, digests: seq<Str>)
    requires AllDigests(digests) && digests != []
    ensures AnchorBatch(h, batchId, digests).Some?
  {
    SortedDigests(digests);
  }

  /** The digest stands at this place when the batch is sorted by lower-case text. */
  ghost predicate LeafAt(digests: seq<Str>, i: nat, d: Str) {
    exists sorted :: multiset(sorted) == multiset(digests) && Sorting.Sorted(Less, LowerAll(sorted))
      && i < |sorted| && Lower(sorted[i]) == Lower(d)
  }

  /** Every digest of a batch has an entry, with its place among the sorted digests, and the entry's
      proof verifies it against the root. */
  lemma EntriesVerify(h: Hash, batchId: int, digests: seq<Str>, d: Str)
    requires AnchorBatch(h, batchId, digests).Some? && d in digests
    ensures var b := AnchorBatch(h, batchId, digests).value;
      && b.batchId == batchId && Lower(d) in b.entries
      && VerifyProof(h, d, b.entries[Lower(d)].proof, b.root) == Some(true)
      && LeafAt(digests, b.entries[Lower(d)].leafIndex, d)
  {
    var sorted := Sorting.Sort(DigestBefore, digests);
    Sorting.InMultiset(sorted, digests);
    var nodes := ReadAll(sorted).value;
    var keys := LowerAll(sorted);
    assert d in sorted;
    var k :| 0 <= k < |sorted| && sorted[k] == d;
    var i := AssignedMeans(keys, EntriesOf(h, nodes), |sorted|, k);
    assert keys[i] == Lower(sorted[i]);
    TwinVerifies(h, nodes, i, sorted[i], d);
    SortedLower(digests);
  }

  // ---------------------------------------------------- order does not matter

  lemma LowerAllSplit(a: seq<Str>, b: seq<Str>)
    ensures LowerAll(a + b) == LowerAll(a) + LowerAll(b)
  {
  }

  function Without(s: seq<Str>, j: nat): seq<Str>
    requires j < |s|
  {
    s[..j] + s[j + 1..]
  }

  lemma LowerAllWithout(s: seq<Str>, j: nat)
    requires j < |s|
    ensures multiset(LowerAll(s)) == multiset(LowerAll(Without(s, j))) + multiset{Lower(s[j])}
  {
    LowerAllSplit(s[..j], s[j + 1..]);
    assert LowerAll(s) == LowerAll(s[..j]) + ([Lower(s[j])] + LowerAll(s[j + 1..]));
  }

  lemma {:induction false} LowerAllPermutes(a: seq<Str>, b: seq<Str>)
    requires multiset(a) == multiset(b)
    ensures multiset(LowerAll(a)) == multiset(LowerAll(b))
    decreases |a|
  {
    assert |multiset(a)| == |a| && |multiset(b)| == |b|;
    if a != [] {
      Sorting.InMultiset(a, b);
      assert a[0] in b;
      var j :| 0 <= j < |b| && b[j] == a[0];
      RemoveAt(a, b, j);
      LowerAllPermutes(Without(a, 0), Without(b, j));
      LowerAllWithout(a, 0);
      LowerAllWithout(b, j);
    }
  }

  lemma WithoutOne(s: seq<Str>, j: nat)
    requires j < |s|
    ensures multiset(Without(s, j)) == multiset(s) - multiset{s[j]}
  {
    assert s == s[..j] + ([s[j]] + s[j + 1..]);
    assert multiset(s) == multiset(s[..j]) + (multiset{s[j]} + multiset(s[j + 1..]));
  }

  lemma RemoveAt(a: seq<Str>, b: seq<Str>, j: nat)
    requires a != [] && j < |b| && b[j] == a[0] && multiset(a) == multiset(b)
    ensures multiset(Without(a, 0)) == multiset(Without(b, j))
  {
    WithoutOne(a, 0);
    WithoutOne(b, j);
  }

  lemma DigestOrder()
    ensures Sorting.StrictWeak(DigestBefore)
  {
    LessOrders();
  }

  lemma TextsDistinguished(s: seq<Str>)
    ensures Sorting.Distinguishes(Less, s)
  {
    forall x, y | x in s && y in s && x != y ensures Less(x, y) || Less(y, x) { LessTotal(x, y); }
  }

  lemma SortedLower(ds: seq<Str>)
    ensures Sorting.Sorted(Less, LowerAll(Sorting.Sort(DigestBefore, ds)))
  {
    DigestOrder();
    var s := Sorting.Sort(DigestBefore, ds);
    Sorting.SortSorted(DigestBefore, ds);
    forall i, j | 0 <= i < j < |s| ensures !Less(LowerAll(s)[j], LowerAll(s)[i]) {
      assert !DigestBefore(s[j], s[i]);
    }
  }

  lemma SameLowerSort(a: seq<Str>, b: seq<Str>)
    requires multiset(a) == multiset(b)
    ensures LowerAll(Sorting.Sort(DigestBefore, a)) == LowerAll(Sorting.Sort(DigestBefore, b))
  {
    var s, t := Sorting.Sort(DigestBefore, a), Sorting.Sort(DigestBefore, b);
    LowerAllPermutes(s, t);
    SortedLower(a);
    SortedLower(b);
    TextsDistinguished(LowerAll(s));
    Sorting.SortedUnique(Less, LowerAll(s), LowerAll(t));
  }

  /** A third party with the same digests, in any order, rebuilds the same root and entries. */
  lemma BatchIgnoresOrder(h: Hash, batchId: int, a: seq<Str>, b: seq<Str>)
    requires multiset(a) == multiset(b)
    ensures AnchorBatch(h, batchId, a) == AnchorBatch(h, batchId, b)
  {
    var s, t := Sorting.Sort(DigestBefore, a), Sorting.Sort(DigestBefore, b);
    SameLowerSort(a, b);
    assert |LowerAll(s)| == |LowerAll(t)|;
    forall i | 0 <= i < |s| ensures FromHex(s[i]) == FromHex(t[i]) {
      assert LowerAll(s)[i] == LowerAll(t)[i];
      LowerReads(s[i]);
      LowerReads(t[i]);
    }
    SameReadings(s, t);
  }

  lemma SameReadings(s: seq<Str>, t: seq<Str>)
    requires |s| == |t| && forall i :: 0 <= i < |s| ==> FromHex(s[i]) == FromHex(t[i])
    ensures ReadAll(s) == ReadAll(t)
  {
    if ReadAll(t).Some? { ReadAllIs(s, ReadAll(t).value); }
    if ReadAll(s).Some? { ReadAllIs(t, ReadAll(s).value); }
  }
}
