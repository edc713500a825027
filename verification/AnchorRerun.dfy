/** A second run of the anchoring script over the receipts that a stopped run has left behind. */
module AnchorRerun {
  import opened Text
  import opened Json
  import opened Hex
  import opened Merkle
  import opened Receipts
  import opened Anchoring
  import opened AnchorRun
  import opened Evidence
  import Sorting

  /** The store lists the same receipts again, as the run has left them. */
  ghost predicate Relisted(records: map<Str, Stored>, rs: seq<Stored>, again: seq<Stored>) {
    |again| == |rs| && forall i :: 0 <= i < |rs| ==> Key(rs[i]) in records && again[i] == records[Key(rs[i])]
  }

  /** A run as AnchorAll leaves it. */
  ghost predicate Ran(h: Hash, time: Clock, w: World, rs: seq<Stored>, ids: seq<int>, calls: seq<AnchorCall>,
                      records0: map<Str, Stored>, records: map<Str, Stored>) {
    && DistinctKeys(rs) && (forall r :: r in rs ==> Key(r) in records0 && records0[Key(r)] == r)
    && HoursOf(time, Unanchored(rs), ids)
    && Progress(h, time, w, PlanOf(h, time, Unanchored(rs)), Unanchored(rs), ids, calls, records0, records)
  }

  // ------------------------------------------------------- what is left behind

  ghost predicate SavedBySome(time: Clock, w: World, un: seq<Stored>, calls: seq<AnchorCall>, r: Stored) {
    exists c :: c in calls && r in Saved(time, w, un, c)
  }

  /** Afterwards a receipt is without an anchor exactly if it was, and no call has saved it. */
  lemma LeftBehind(h: Hash, time: Clock, w: World, rs: seq<Stored>, ids: seq<int>, calls: seq<AnchorCall>,
                   records0: map<Str, Stored>, records: map<Str, Stored>, r: Stored)
    requires Ran(h, time, w, rs, ids, calls, records0, records) && r in rs
    ensures Key(r) in records
    ensures records[Key(r)].anchor.None? <==> r.anchor.None? && !SavedBySome(time, w, Unanchored(rs), calls, r)
    ensures records[Key(r)].anchor.None? ==> records[Key(r)] == r
  {
    var un := Unanchored(rs);
    if r.anchor.None? {
      assert r in un && Fate(h, time, w, un, calls, r, records[Key(r)]);
    } else {
      forall u | u in un ensures Key(u) != Key(r) { assert u in rs && u != r; }
    }
  }

  lemma SavedByItsCall(time: Clock, w: World, plan: Plan, un: seq<Stored>, ids: seq<int>, calls: seq<AnchorCall>,
                       n: nat, r: Stored)
    requires HoursOf(time, un, ids) && CallsOf(plan, ids, calls) && n < |calls| && Hour(time, r) == ids[n]
    ensures SavedBySome(time, w, un, calls, r) <==> r in Saved(time, w, un, calls[n])
  {
    if c :| c in calls && r in Saved(time, w, un, c) {
      MembersAre(time, un, c.batchId);
      var m :| 0 <= m < |calls| && calls[m] == c;
      assert ids[m] == ids[n];
    }
    assert calls[n] in calls;
  }

  lemma LeftInBatch(h: Hash, time: Clock, w: World, rs: seq<Stored>, ids: seq<int>, calls: seq<AnchorCall>,
                    records0: map<Str, Stored>, records: map<Str, Stored>, n: nat, r: Stored)
    requires Ran(h, time, w, rs, ids, calls, records0, records) && n < |calls| && r in rs && Hour(time, r) == ids[n]
    ensures Key(r) in records
    ensures records[Key(r)].anchor.None? <==> r.anchor.None? && r !in Saved(time, w, Unanchored(rs), calls[n])
    ensures records[Key(r)].anchor.None? ==> records[Key(r)] == r
  {
    LeftBehind(h, time, w, rs, ids, calls, records0, records, r);
    SavedByItsCall(time, w, PlanOf(h, time, Unanchored(rs)), Unanchored(rs), ids, calls, n, r);
  }

  /** The batch of the second run: what the first has not saved. */
  lemma RestOfBatch(h: Hash, time: Clock, w: World, rs: seq<Stored>, ids: seq<int>, calls: seq<AnchorCall>,
                    records0: map<Str, Stored>, records: map<Str, Stored>, again: seq<Stored>, n: nat)
    requires Ran(h, time, w, rs, ids, calls, records0, records) && n < |calls| && Relisted(records, rs, again)
    ensures var un := Unanchored(rs);
      forall m :: m in Members(time, Unanchored(again), ids[n])
        <==> m in Members(time, un, ids[n]) && m !in Saved(time, w, un, calls[n])
  {
    var un, id, saved := Unanchored(rs), ids[n], Saved(time, w, Unanchored(rs), calls[n]);
    MembersAre(time, un, id);
    MembersAre(time, Unanchored(again), id);
    forall m | m in again && m.anchor.None? && Hour(time, m) == id ensures m in rs && m !in saved {
      var i :| 0 <= i < |again| && again[i] == m;
      LeftBehind(h, time, w, rs, ids, calls, records0, records, rs[i]);
      LeftInBatch(h, time, w, rs, ids, calls, records0, records, n, m);
    }
    forall m | m in rs && m.anchor.None? && Hour(time, m) == id && m !in saved ensures m in again {
      var i :| 0 <= i < |rs| && rs[i] == m;
      LeftInBatch(h, time, w, rs, ids, calls, records0, records, n, m);
      assert again[i] == m;
    }
  }

  // ---------------------------------------------- nothing saved: the same batch

  lemma {:induction false} MembersCons(time: Clock, r: Stored, rs: seq<Stored>, id: int)
    ensures Members(time, [r] + rs, id) == (if Hour(time, r) == id then [r] else []) + Members(time, rs, id)
  {
    if rs == [] {
      assert ([r] + rs)[..0] == [];
      assert [r] + rs == [r];
    } else {
      var init, last := rs[..|rs| - 1], rs[|rs| - 1];
      assert [r] + rs == ([r] + init) + [last];
      MembersCons(time, r, init, id);
      MembersSnoc(time, [r] + init, last, id);
    }
  }

  predicate Pending(time: Clock, id: int, r: Stored) { r.anchor.None? && Hour(time, r) == id }

  function PendingFirst(time: Clock, id: int, r: Stored): seq<Stored> { if Pending(time, id, r) then [r] else [] }

  lemma PendingCons(time: Clock, rs: seq<Stored>, id: int)
    requires rs != []
    ensures Members(time, Unanchored(rs), id) == PendingFirst(time, id, rs[0]) + Members(time, Unanchored(rs[1..]), id)
  {
    var rest := Unanchored(rs[1..]);
    if rs[0].anchor.None? {
      MembersCons(time, rs[0], rest, id);
    } else {
      assert [] + rest == rest;
    }
  }

  lemma {:induction false} SamePending(time: Clock, rs: seq<Stored>, again: seq<Stored>, id: int)
    requires |rs| == |again|
    requires forall i :: 0 <= i < |rs| ==> PendingFirst(time, id, rs[i]) == PendingFirst(time, id, again[i])
    ensures Members(time, Unanchored(rs), id) == Members(time, Unanchored(again), id)
  {
    if rs != [] {
      assert forall i :: 0 <= i < |rs| - 1 ==> rs[1..][i] == rs[i + 1] && again[1..][i] == again[i + 1];
      SamePending(time, rs[1..], again[1..], id);
      PendingCons(time, rs, id);
      PendingCons(time, again, id);
    }
  }

  lemma UnsavedBatchStays(h: Hash, time: Clock, w: World, rs: seq<Stored>, ids: seq<int>, calls: seq<AnchorCall>,
                          records0: map<Str, Stored>, records: map<Str, Stored>, again: seq<Stored>, n: nat)
    requires Ran(h, time, w, rs, ids, calls, records0, records) && n < |calls| && Relisted(records, rs, again)
    requires Saved(time, w, Unanchored(rs), calls[n]) == []
    ensures Members(time, Unanchored(again), ids[n]) == Members(time, Unanchored(rs), ids[n])
  {
    var un, id := Unanchored(rs), ids[n];
    forall i | 0 <= i < |rs| ensures PendingFirst(time, id, rs[i]) == PendingFirst(time, id, again[i]) {
      LeftBehind(h, time, w, rs, ids, calls, records0, records, rs[i]);
      if Hour(time, rs[i]) == id { SavedByItsCall(time, w, PlanOf(h, time, un), un, ids, calls, n, rs[i]); }
    }
    SamePending(time, rs, again, id);
  }

  // ------------------------------------------------ something saved: another root

  lemma MemberIsNode(h: Hash, members: seq<Stored>, m: Stored)
    requires SelfDigested(h, members) && m in members
    requires ReadAll(Sorting.Sort(DigestBefore, AnchorRun.Digests(members))).Some?
    ensures h(ReceiptBytes(m.receipt)) in Nodes(members)
  {
    var ds := AnchorRun.Digests(members);
    var sorted := Sorting.Sort(DigestBefore, ds);
    Sorting.InMultiset(sorted, ds);
    var k :| 0 <= k < |members| && members[k] == m;
    assert ds[k] == m.digest && m.digest in sorted;
    var i :| 0 <= i < |sorted| && sorted[i] == m.digest;
    ToHexIsDigest(h(ReceiptBytes(m.receipt)));
    assert Nodes(members)[i] == h(ReceiptBytes(m.receipt));
  }

  ghost predicate Part(part: seq<Stored>, whole: seq<Stored>) { forall m :: m in part ==> m in whole }

  /** The bytes that are hashed for two batches, of which one is part of the other. */
  ghost function BothHashed(h: Hash, whole: seq<Stored>, part: seq<Stored>): set<Bytes> {
    TreeInputs(h, Nodes(whole)) + TreeInputs(h, Nodes(part)) + AllBytes(ReceiptsOf(whole))
  }

  lemma PartDigested(h: Hash, whole: seq<Stored>, part: seq<Stored>)
    requires SelfDigested(h, whole) && Part(part, whole)
    ensures SelfDigested(h, part) && AllBytes(ReceiptsOf(part)) <= AllBytes(ReceiptsOf(whole))
  {
    forall i | 0 <= i < |part|
      ensures part[i].digest == ReceiptDigest(h, part[i].receipt)
      ensures ReceiptBytes(part[i].receipt) in AllBytes(ReceiptsOf(whole))
    {
      assert part[i] in whole;
      var k :| 0 <= k < |whole| && whole[k] == part[i];
      assert ReceiptsOf(whole)[k] == part[i].receipt;
    }
  }

  lemma SameRootSameNodes(h: Hash, id: int, whole: seq<Stored>, part: seq<Stored>)
    requires SelfDigested(h, whole) && Part(part, whole) && CollisionFree(h, BothHashed(h, whole, part))
    requires CallFor(h, id, whole).Some? && CallFor(h, id, part).Some?
    requires CallFor(h, id, whole).value.root == CallFor(h, id, part).value.root
    ensures multiset(Nodes(whole)) == multiset(Nodes(part))
  {
    var a, b := Nodes(whole), Nodes(part);
    var inputs, pairs := BothHashed(h, whole, part), TreeInputs(h, a) + TreeInputs(h, b);
    PartDigested(h, whole, part);
    CallRoot(h, id, whole);
    CallRoot(h, id, part);
    BatchNodes(h, whole);
    BatchNodes(h, part);
    NodesAreDigests(h, a, ReceiptsOf(whole));
    NodesAreDigests(h, b, ReceiptsOf(part));
    NodesLeafTyped(h, a, ReceiptsOf(whole), pairs, inputs);
    NodesLeafTyped(h, b, ReceiptsOf(part), pairs, inputs);
    RootIsDigest(h, a);
    RootIsDigest(h, b);
    ToHexIsDigest(Root(h, a));
    ToHexIsDigest(Root(h, b));
    RootsCommit(h, a, b, pairs);
  }

  /** Without one of its receipts a batch has another root. */
  lemma SmallerBatchOtherRoot(h: Hash, id: int, whole: seq<Stored>, part: seq<Stored>, gone: Stored)
    requires SelfDigested(h, whole) && Part(part, whole) && CollisionFree(h, BothHashed(h, whole, part))
    requires CallFor(h, id, whole).Some? && CallFor(h, id, part).Some?
    requires DistinctKeys(whole) && gone in whole && gone !in part
    ensures CallFor(h, id, whole).value.root != CallFor(h, id, part).value.root
  {
    if CallFor(h, id, whole).value.root == CallFor(h, id, part).value.root {
      PartDigested(h, whole, part);
      CallRoot(h, id, whole);
      CallRoot(h, id, part);
      SameRootSameNodes(h, id, whole, part);
      MemberIsNode(h, whole, gone);
      var x := h(ReceiptBytes(gone.receipt));
      assert x in multiset(Nodes(whole)) && x in Nodes(part);
      BatchNodes(h, part);
      StillThere(h, whole, part, gone);
      assert false;
    }
  }

  lemma StillThere(h: Hash, whole: seq<Stored>, part: seq<Stored>, gone: Stored)
    requires Part(part, whole) && DistinctKeys(whole) && gone in whole && SelfDigested(h, whole)
    requires ReceiptNodes(h, Nodes(part), ReceiptsOf(part)) && h(ReceiptBytes(gone.receipt)) in Nodes(part)
    requires CollisionFree(h, AllBytes(ReceiptsOf(whole)))
    ensures gone in part
  {
    PartDigested(h, whole, part);
    var k :| 0 <= k < |whole| && whole[k] == gone;
    assert ReceiptsOf(whole)[k] == gone.receipt;
    LeafIsReceipt(h, Nodes(part), ReceiptsOf(part), gone.receipt, AllBytes(ReceiptsOf(whole)));
    var i :| 0 <= i < |part| && ReceiptsOf(part)[i] == gone.receipt;
    assert part[i] in whole && Key(part[i]) == Key(gone);
  }

  // ---------------------------------------------------------------- main result

  lemma PartBuilt(h: Hash, id: int, members: seq<Stored>)
    requires SelfDigested(h, members) && members != []
    ensures AnchorBatch(h, id, AnchorRun.Digests(members)).Some?
  {
    forall i | 0 <= i < |members| ensures IsDigest(AnchorRun.Digests(members)[i]) {
      ReceiptDigestIsDigest(h, members[i].receipt);
    }
    DigestsMakeBatch(h, id, AnchorRun.Digests(members));
  }

  lemma PartOnePolicy(whole: seq<Stored>, part: seq<Stored>)
    requires Part(part, whole) && part != [] && whole != [] && PolicyHashOf(whole).Some?
    ensures PolicyHashOf(part) == PolicyHashOf(whole)
  {
    OnePolicy(whole);
    OnePolicy(part);
    assert part[0] in whole;
  }

  /** What a planned call comes from. */
  lemma CallParts(h: Hash, id: int, members: seq<Stored>)
    ensures CallFor(h, id, members).Some?
      <==> AnchorBatch(h, id, AnchorRun.Digests(members)).Some? && PolicyHashOf(members).Some?
    ensures CallFor(h, id, members).Some? ==>
      var c := CallFor(h, id, members).value;
      c == AnchorCall(id, c.root, PolicyHashOf(members).value, BatchKey(id))
  {
  }

  /** Part of a batch that was planned can be planned too, under the same key and policy. */
  lemma PartPlanned(h: Hash, id: int, whole: seq<Stored>, part: seq<Stored>)
    requires SelfDigested(h, whole) && Part(part, whole) && part != [] && CallFor(h, id, whole).Some?
    ensures var c, d := CallFor(h, id, whole), CallFor(h, id, part);
      d.Some? && d.value == c.value.(root := d.value.root)
  {
    assert part[0] in whole;
    CallParts(h, id, whole);
    CallParts(h, id, part);
    PartDigested(h, whole, part);
    PartBuilt(h, id, part);
    PartOnePolicy(whole, part);
  }

  lemma SomeLeft(time: Clock, w: World, un: seq<Stored>, call: AnchorCall) returns (m: Stored)
    requires DistinctKeys(un) && Members(time, un, call.batchId) != [] && !Whole(time, w, un, call)
    ensures m in Members(time, un, call.batchId) && m !in Saved(time, w, un, call)
  {
    var members, saved := Members(time, un, call.batchId), Saved(time, w, un, call);
    MembersDistinct(time, un, call.batchId);
    m := members[|saved|];
    assert forall i :: 0 <= i < |saved| ==> saved[i] == members[i];
  }

  lemma RestPlanned(h: Hash, time: Clock, w: World, rs: seq<Stored>, ids: seq<int>, calls: seq<AnchorCall>,
                    records0: map<Str, Stored>, records: map<Str, Stored>, again: seq<Stored>, n: nat)
    requires Ran(h, time, w, rs, ids, calls, records0, records) && Relisted(records, rs, again)
    requires n < |calls| && !Whole(time, w, Unanchored(rs), calls[n])
    ensures var un := Unanchored(rs);
      var whole, part := Members(time, un, ids[n]), Members(time, Unanchored(again), ids[n]);
      var saved := Saved(time, w, un, calls[n]);
      && CallFor(h, ids[n], whole) == Some(calls[n]) && DistinctKeys(whole) && Part(part, whole) && part != []
      && if saved == [] then part == whole else saved[0] in whole && saved[0] !in part
  {
    var un, id := Unanchored(rs), ids[n];
    assert calls[n].batchId == id && CallFor(h, id, Members(time, un, id)) == Some(calls[n]);
    UnanchoredKeys(rs);
    MembersDistinct(time, un, id);
    RestOfBatch(h, time, w, rs, ids, calls, records0, records, again, n);
    CallRoot(h, id, Members(time, un, id));
    EmptyHasNoNodes();
    var left := SomeLeft(time, w, un, calls[n]);
    assert left in Members(time, Unanchored(again), id);
    var saved := Saved(time, w, un, calls[n]);
    if saved == [] {
      UnsavedBatchStays(h, time, w, rs, ids, calls, records0, records, again, n);
    } else {
      assert saved[0] in saved;
    }
  }

  lemma EmptyHasNoNodes()
    ensures Nodes([]) == []
  {
    assert AnchorRun.Digests([]) == [];
  }

  /** A run has stopped at a call that failed or whose receipts were not all written back. Run again,
      the script makes a call under the same idempotency key, and it is the same call exactly if no
      receipt of the batch had been written back. Otherwise the root differs. */
  lemma RerunRepeatsExactly(h: Hash, time: Clock, w: World, rs: seq<Stored>, ids: seq<int>, calls: seq<AnchorCall>,
                            records0: map<Str, Stored>, records: map<Str, Stored>, again: seq<Stored>, n: nat)
    requires Ran(h, time, w, rs, ids, calls, records0, records) && Relisted(records, rs, again)
    requires n < |calls| && !Whole(time, w, Unanchored(rs), calls[n])
    requires SelfDigested(h, Members(time, Unanchored(rs), ids[n]))
    requires CollisionFree(h, BothHashed(h, Members(time, Unanchored(rs), ids[n]),
                                         Members(time, Unanchored(again), ids[n])))
    ensures var next := PlanOf(h, time, Unanchored(again))(ids[n]);
      && next.Some? && next.value == calls[n].(root := next.value.root)
      && (next.value.root == calls[n].root <==> Saved(time, w, Unanchored(rs), calls[n]) == [])
  {
    var whole, part := Members(time, Unanchored(rs), ids[n]), Members(time, Unanchored(again), ids[n]);
    var saved := Saved(time, w, Unanchored(rs), calls[n]);
    RestPlanned(h, time, w, rs, ids, calls, records0, records, again, n);
    PartPlanned(h, ids[n], whole, part);
    if saved != [] { SmallerBatchOtherRoot(h, ids[n], whole, part, saved[0]); }
  }
}
