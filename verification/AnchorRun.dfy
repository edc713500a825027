/** One run of the anchoring script over the receipts a store lists. Date.parse is the parameter
    `time`; how KeeperHub answers a call and how far the store gets with its receipts are parameters
    too. */
module AnchorRun {
  import opened Text
  import opened Json
  import opened Hex
  import opened Merkle
  import opened Receipts
  import opened Anchoring
  import Sorting

  datatype AnchorInfo = AnchorInfo(
    batchId: int, root: Str, policyHash: Str, leafIndex: nat, proof: seq<Str>,
    executionId: Str, transactionHash: Option<Str>)

  datatype Stored = Stored(receipt: Receipt, digest: Str, anchor: Option<AnchorInfo>)

  datatype Accepted = Accepted(executionId: Str, transactionHash: Option<Str>)

  datatype AnchorCall = AnchorCall(batchId: int, root: Str, policyHash: Str, idempotencyKey: Str)

  type Clock = Str -> int

  /** What surrounds a run: `send` is None for a call that throws, and of the receipts of a batch the
      store takes `puts` many before it throws. */
  datatype World = World(send: AnchorCall -> Option<Accepted>, puts: AnchorCall -> nat)

  function Key(r: Stored): Str { r.receipt.intentId }

  function Hour(time: Clock, r: Stored): int { BatchIdFor(time(r.receipt.at)) }

  // --------------------------------------------------------------- grouping

  /** The receipts of one hour, in list order. */
  function Members(time: Clock, rs: seq<Stored>, id: int): seq<Stored> {
    if rs == [] then []
    else
      var last := rs[|rs| - 1];
      Members(time, rs[..|rs| - 1], id) + (if Hour(time, last) == id then [last] else [])
  }

  lemma {:induction false} MembersAre(time: Clock, rs: seq<Stored>, id: int)
    ensures forall r :: r in Members(time, rs, id) <==> r in rs && Hour(time, r) == id
  {
    if rs != [] {
      MembersAre(time, rs[..|rs| - 1], id);
      assert rs == rs[..|rs| - 1] + [rs[|rs| - 1]];
    }
  }

  predicate IntBefore(a: int, b: int) { a < b }

  ghost predicate Ordered<T>(order: seq<int>, groups: map<int, T>) {
    Sorting.Distinct(order) && forall id :: id in order <==> id in groups
  }

  /** Each hour that occurs is listed once and has its own receipts, in order. */
  ghost predicate Grouped(time: Clock, rs: seq<Stored>, order: seq<int>, groups: map<int, seq<Stored>>) {
    && Ordered(order, groups)
    && (forall id :: id in groups ==> groups[id] == Members(time, rs, id) != [])
    && (forall id :: id !in groups ==> Members(time, rs, id) == [])
  }

  lemma OrderAdded<T>(order: seq<int>, groups: map<int, T>, id: int, group: T)
    requires Ordered(order, groups) && id !in groups
    ensures Ordered(order + [id], groups[id := group])
  {
    var more := order + [id];
    forall i, j | 0 <= i < j < |more| ensures more[i] != more[j] {
      assert more[i] == order[i] && order[i] in order;
    }
  }

  lemma MembersSnoc(time: Clock, rs: seq<Stored>, r: Stored, id: int)
    ensures Members(time, rs + [r], id)
         == if Hour(time, r) == id then Members(time, rs, id) + [r] else Members(time, rs, id)
  {
    assert (rs + [r])[..|rs|] == rs;
    assert Members(time, rs, id) + [] == Members(time, rs, id);
  }

  lemma GroupExtended(time: Clock, rs: seq<Stored>, r: Stored, order: seq<int>, groups: map<int, seq<Stored>>)
    requires Grouped(time, rs, order, groups) && Hour(time, r) in groups
    ensures var id := Hour(time, r); Grouped(time, rs + [r], order, groups[id := groups[id] + [r]])
  {
    var id := Hour(time, r);
    var more := groups[id := groups[id] + [r]];
    forall k | k in more ensures more[k] == Members(time, rs + [r], k) != [] { MembersSnoc(time, rs, r, k); }
    forall k | k !in more ensures Members(time, rs + [r], k) == [] { MembersSnoc(time, rs, r, k); }
  }

  lemma GroupOpened(time: Clock, rs: seq<Stored>, r: Stored, order: seq<int>, groups: map<int, seq<Stored>>)
    requires Grouped(time, rs, order, groups) && Hour(time, r) !in groups
    ensures var id := Hour(time, r); Grouped(time, rs + [r], order + [id], groups[id := [r]])
  {
    var id := Hour(time, r);
    var more := groups[id := [r]];
    OrderAdded(order, groups, id, [r]);
    assert [] + [r] == [r];
    forall k | k in more ensures more[k] == Members(time, rs + [r], k) != [] { MembersSnoc(time, rs, r, k); }
    forall k | k !in more ensures Members(time, rs + [r], k) == [] { MembersSnoc(time, rs, r, k); }
  }

  lemma GroupStep(time: Clock, rs: seq<Stored>, i: nat, order: seq<int>, groups: map<int, seq<Stored>>)
    requires i < |rs| && Grouped(time, rs[..i], order, groups)
    ensures var id := Hour(time, rs[i]);
      if id in groups then Grouped(time, rs[..i + 1], order, groups[id := groups[id] + [rs[i]]])
      else Grouped(time, rs[..i + 1], order + [id], groups[id := [rs[i]]])
  {
    assert rs[..i + 1] == rs[..i] + [rs[i]];
    if Hour(time, rs[i]) in groups {
      GroupExtended(time, rs[..i], rs[i], order, groups);
    } else {
      GroupOpened(time, rs[..i], rs[i], order, groups);
    }
  }

  /** A JavaScript Map: its keys in insertion order and its values. */
  method GroupByBatch(time: Clock, rs: seq<Stored>) returns (order: seq<int>, groups: map<int, seq<Stored>>)
    ensures Grouped(time, rs, order, groups)
  {
    order, groups := [], map[];
    for i := 0 to |rs|
      invariant Grouped(time, rs[..i], order, groups)
    {
      var id := Hour(time, rs[i]);
      GroupStep(time, rs, i, order, groups);
      if id in groups {
        groups := groups[id := groups[id] + [rs[i]]];
      } else {
        order := order + [id];
        groups := groups[id := [rs[i]]];
      }
    }
    assert rs[..|rs|] == rs;
  }

  /** The one policy hash of a batch; None stands for the refusal to anchor a mixed batch. */
  function PolicyHashOf(members: seq<Stored>): Option<Str> {
    var hashes := set i | 0 <= i < |members| :: Lower(members[i].receipt.policyHash);
    if |hashes| != 1 then None else Some(Lower(members[0].receipt.policyHash))
  }

  lemma OnePolicy(members: seq<Stored>)
    requires members != []
    ensures PolicyHashOf(members).Some? <==>
      forall r :: r in members ==> Lower(r.receipt.policyHash) == Lower(members[0].receipt.policyHash)
  {
    var hashes := set i | 0 <= i < |members| :: Lower(members[i].receipt.policyHash);
    var first := Lower(members[0].receipt.policyHash);
    assert first in hashes;
    if |hashes| == 1 {
      assert |hashes - {first}| == 0;
      forall r | r in members ensures Lower(r.receipt.policyHash) == first {
        assert Lower(r.receipt.policyHash) in hashes;
        assert Lower(r.receipt.policyHash) !in hashes - {first};
      }
    }
    if forall r :: r in members ==> Lower(r.receipt.policyHash) == first {
      assert hashes == {first};
    }
  }

  // ------------------------------------------------------------- one batch

  function Digests(rs: seq<Stored>): (r: seq<Str>)
    ensures |r| == |rs| && forall i :: 0 <= i < |r| ==> r[i] == rs[i].digest
  {
    seq(|rs|, i requires 0 <= i < |rs| => rs[i].digest)
  }

  const BATCH_KEY_PREFIX: Str := S("noyeet-anchor-")

  function BatchKey(id: int): Str { BATCH_KEY_PREFIX + EmitNum(id) }

  /** The call a batch makes, if the script does not refuse it first. */
  function CallFor(h: Hash, id: int, members: seq<Stored>): Option<AnchorCall> {
    match (AnchorBatch(h, id, Digests(members)), PolicyHashOf(members))
    case (Some(b), Some(p)) => Some(AnchorCall(id, b.root, p, BatchKey(id)))
    case _ => None
  }

  /** What the script writes back for a receipt whose batch was accepted. */
  function Anchored(r: Stored, batch: Batch, policyHash: Str, a: Accepted): Stored
    requires Lower(r.digest) in batch.entries
  {
    var e := batch.entries[Lower(r.digest)];
    r.(anchor := Some(AnchorInfo(batch.batchId, batch.root, policyHash, e.leafIndex, e.proof, a.executionId,
                                 a.transactionHash)))
  }

  /** Receipts of a store, each under its own key. */
  ghost predicate Listed(records: map<Str, Stored>, rs: seq<Stored>) {
    && (forall r :: r in rs ==> Key(r) in records)
    && DistinctKeys(rs)
  }

  ghost predicate DistinctKeys(rs: seq<Stored>) {
    forall i, j :: 0 <= i < j < |rs| ==> Key(rs[i]) != Key(rs[j])
  }

  /** A stored receipt carries proof of its own hour's batch. */
  ghost predicate ProvedIn(h: Hash, time: Clock, before: Stored, after: Stored, call: AnchorCall, a: Accepted) {
    && after.receipt == before.receipt && after.digest == before.digest && after.anchor.Some?
    && after.anchor.value.batchId == call.batchId == Hour(time, before)
    && after.anchor.value.root == call.root
    && after.anchor.value.policyHash == call.policyHash == Lower(before.receipt.policyHash)
    && after.anchor.value.executionId == a.executionId && after.anchor.value.transactionHash == a.transactionHash
    && VerifyProof(h, before.digest, after.anchor.value.proof, call.root) == Some(true)
  }

  lemma AnchoredProves(h: Hash, time: Clock, id: int, members: seq<Stored>, r: Stored, a: Accepted)
    requires r in members && Hour(time, r) == id && CallFor(h, id, members).Some?
    ensures var b := AnchorBatch(h, id, Digests(members));
      && b.Some? && Lower(r.digest) in b.value.entries
      && ProvedIn(h, time, r, Anchored(r, b.value, PolicyHashOf(members).value, a), CallFor(h, id, members).value, a)
  {
    var i :| 0 <= i < |members| && members[i] == r;
    assert Digests(members)[i] == r.digest;
    EntriesVerify(h, id, Digests(members), r.digest);
    OnePolicy(members);
  }

  /** Nothing but the given receipts has changed in the store. */
  ghost predicate OnlyTouches(records0: map<Str, Stored>, records: map<Str, Stored>, rs: seq<Stored>) {
    && records.Keys == records0.Keys
    && forall k :: k in records0 && (forall r :: r in rs ==> Key(r) != k) ==> records[k] == records0[k]
  }

  ghost predicate AllEntered(members: seq<Stored>, batch: Batch) {
    forall i :: 0 <= i < |members| ==> Lower(members[i].digest) in batch.entries
  }

  /** The store after the first n puts. */
  function Put(records: map<Str, Stored>, members: seq<Stored>, batch: Batch, policyHash: Str, a: Accepted, n: nat)
    : map<Str, Stored>
    requires n <= |members| && AllEntered(members, batch)
  {
    if n == 0 then records
    else
      var before := Put(records, members, batch, policyHash, a, n - 1);
      before[Key(members[n - 1]) := Anchored(members[n - 1], batch, policyHash, a)]
  }

  lemma {:induction false} PutKeys(records: map<Str, Stored>, members: seq<Stored>, batch: Batch, policyHash: Str,
                                   a: Accepted, n: nat)
    requires n <= |members| && AllEntered(members, batch) && Listed(records, members)
    ensures Put(records, members, batch, policyHash, a, n).Keys == records.Keys
  {
    if n > 0 {
      PutKeys(records, members, batch, policyHash, a, n - 1);
      assert members[n - 1] in members;
    }
  }

  lemma {:induction false} PutKeeps(records: map<Str, Stored>, members: seq<Stored>, batch: Batch, policyHash: Str,
                                    a: Accepted, n: nat, k: Str)
    requires n <= |members| && AllEntered(members, batch) && k in records
    requires forall i :: 0 <= i < n ==> Key(members[i]) != k
    ensures k in Put(records, members, batch, policyHash, a, n)
      && Put(records, members, batch, policyHash, a, n)[k] == records[k]
  {
    if n > 0 { PutKeeps(records, members, batch, policyHash, a, n - 1, k); }
  }

  lemma {:induction false} PutSets(records: map<Str, Stored>, members: seq<Stored>, batch: Batch, policyHash: Str,
                                   a: Accepted, n: nat, i: nat)
    requires i < n <= |members| && AllEntered(members, batch) && DistinctKeys(members)
    ensures var r := Put(records, members, batch, policyHash, a, n);
      Key(members[i]) in r && r[Key(members[i])] == Anchored(members[i], batch, policyHash, a)
  {
    if i < n - 1 { PutSets(records, members, batch, policyHash, a, n - 1, i); }
  }

  function First<T>(s: seq<T>, n: nat): seq<T> { if n <= |s| then s[..n] else s }

  /** The inner loop of the script: one put per member, until one throws. */
  method PutMembers(records0: map<Str, Stored>, members: seq<Stored>, batch: Batch, policyHash: Str, a: Accepted,
                    puts: nat)
    returns (records: map<Str, Stored>, all: bool)
    requires Listed(records0, members)
    requires forall r :: r in members ==> Lower(r.digest) in batch.entries
    ensures OnlyTouches(records0, records, First(members, puts))
    ensures forall r :: r in First(members, puts) ==> records[Key(r)] == Anchored(r, batch, policyHash, a)
    ensures all <==> |members| <= puts
  {
    records := records0;
    var i := 0;
    while i < |members| && i < puts
      invariant i <= |members| && i <= puts
      invariant records == Put(records0, members, batch, policyHash, a, i)
    {
      records := records[Key(members[i]) := Anchored(members[i], batch, policyHash, a)];
      i := i + 1;
    }
    assert members[..i] == First(members, puts);
    PutWrites(records0, members, batch, policyHash, a, i);
    return records, i == |members|;
  }

  lemma PutWrites(records: map<Str, Stored>, members: seq<Stored>, batch: Batch, policyHash: Str, a: Accepted, n: nat)
    requires n <= |members| && AllEntered(members, batch) && Listed(records, members)
    ensures var after := Put(records, members, batch, policyHash, a, n);
      && OnlyTouches(records, after, members[..n])
      && forall r :: r in members[..n] ==> after[Key(r)] == Anchored(r, batch, policyHash, a)
  {
    var after := Put(records, members, batch, policyHash, a, n);
    PutKeys(records, members, batch, policyHash, a, n);
    forall k | k in records && (forall r :: r in members[..n] ==> Key(r) != k) ensures after[k] == records[k] {
      forall i | 0 <= i < n ensures Key(members[i]) != k { assert members[i] in members[..n]; }
      PutKeeps(records, members, batch, policyHash, a, n, k);
    }
    forall r | r in members[..n] ensures Key(r) in records && after[Key(r)] == Anchored(r, batch, policyHash, a) {
      var i :| 0 <= i < n && members[..n][i] == r;
      assert members[i] in members;
      PutSets(records, members, batch, policyHash, a, n, i);
    }
  }

  // --------------------------------------------------------------- the run

  function Unanchored(rs: seq<Stored>): (r: seq<Stored>)
    ensures forall x :: x in r <==> x in rs && x.anchor.None?
  {
    if rs == [] then []
    else
      assert rs == [rs[0]] + rs[1..];
      (if rs[0].anchor.None? then [rs[0]] else []) + Unanchored(rs[1..])
  }

  lemma {:induction false} UnanchoredKeys(rs: seq<Stored>)
    requires DistinctKeys(rs)
    ensures DistinctKeys(Unanchored(rs))
  {
    if rs != [] {
      UnanchoredKeys(rs[1..]);
      var u := Unanchored(rs[1..]);
      forall j | 0 <= j < |u| ensures Key(u[j]) != Key(rs[0]) {
        assert u[j] in u;
        assert u[j] in rs[1..];
      }
      assert DistinctKeys([rs[0]] + u);
      assert Unanchored(rs) == if rs[0].anchor.None? then [rs[0]] + u else u;
    }
  }

  lemma {:induction false} MembersDistinct(time: Clock, rs: seq<Stored>, id: int)
    requires DistinctKeys(rs)
    ensures DistinctKeys(Members(time, rs, id))
  {
    if rs != [] {
      var init := rs[..|rs| - 1];
      MembersDistinct(time, init, id);
      MembersAre(time, init, id);
      var ms, last := Members(time, init, id), rs[|rs| - 1];
      forall j | 0 <= j < |ms| ensures Key(ms[j]) != Key(last) { assert ms[j] in ms; }
      assert DistinctKeys(ms + [last]);
      assert Members(time, rs, id) == if Hour(time, last) == id then ms + [last] else ms;
    }
  }

  lemma MembersListed(records: map<Str, Stored>, time: Clock, rs: seq<Stored>, id: int)
    requires Listed(records, rs)
    ensures Listed(records, Members(time, rs, id))
  {
    MembersAre(time, rs, id);
    MembersDistinct(time, rs, id);
  }

  /** For each hour the call its receipts lead to, None if the script refuses the batch. */
  type Plan = int -> Option<AnchorCall>

  function PlanOf(h: Hash, time: Clock, un: seq<Stored>): Plan {
    id => CallFor(h, id, Members(time, un, id))
  }

  /** The calls made are the planned ones of the first batches, in ascending order of their hours. */
  ghost predicate CallsOf(plan: Plan, ids: seq<int>, calls: seq<AnchorCall>) {
    && |calls| <= |ids|
    && forall i :: 0 <= i < |calls| ==> plan(ids[i]) == Some(calls[i]) && calls[i].batchId == ids[i]
  }

  /** The distinct hours of the receipts, ascending. */
  ghost predicate HoursOf(time: Clock, un: seq<Stored>, ids: seq<int>) {
    && (forall i, j :: 0 <= i < j < |ids| ==> ids[i] < ids[j])
    && (forall id :: id in ids <==> exists r :: r in un && Hour(time, r) == id)
  }

  /** The receipts of a batch that were written back: none unless the call was accepted. */
  function Saved(time: Clock, w: World, un: seq<Stored>, c: AnchorCall): (r: seq<Stored>)
    ensures w.send(c).None? ==> r == []
    ensures forall m :: m in r ==> m in Members(time, un, c.batchId)
  {
    if w.send(c).None? then [] else First(Members(time, un, c.batchId), w.puts(c))
  }

  /** What the calls so far have done to one receipt: proved it in its own batch if that batch was
      sent, accepted and written back this far, and otherwise left it alone. */
  ghost predicate Fate(h: Hash, time: Clock, w: World, un: seq<Stored>, calls: seq<AnchorCall>, before: Stored,
                       after: Stored) {
    && (forall c :: c in calls && before in Saved(time, w, un, c) ==>
          ProvedIn(h, time, before, after, c, w.send(c).value))
    && ((forall c :: c in calls ==> before !in Saved(time, w, un, c)) ==> after == before)
  }

  ghost predicate Fates(h: Hash, time: Clock, w: World, un: seq<Stored>, calls: seq<AnchorCall>,
                        records: map<Str, Stored>) {
    forall r :: r in un ==> Key(r) in records && Fate(h, time, w, un, calls, r, records[Key(r)])
  }

  /** What AnchorOne needs to know about its members before it writes them. */
  lemma MembersProved(h: Hash, time: Clock, id: int, members: seq<Stored>, batch: Batch, policyHash: Str, a: Accepted)
    requires forall r :: r in members ==> Hour(time, r) == id
    requires AnchorBatch(h, id, Digests(members)) == Some(batch) && PolicyHashOf(members) == Some(policyHash)
    ensures CallFor(h, id, members) == Some(AnchorCall(id, batch.root, policyHash, BatchKey(id)))
    ensures forall r :: r in members ==>
      && Lower(r.digest) in batch.entries
      && ProvedIn(h, time, r, Anchored(r, batch, policyHash, a), CallFor(h, id, members).value, a)
  {
    forall r | r in members
      ensures Lower(r.digest) in batch.entries
      ensures ProvedIn(h, time, r, Anchored(r, batch, policyHash, a), CallFor(h, id, members).value, a)
    {
      AnchoredProves(h, time, id, members, r, a);
    }
  }

  /** What one call has done to the store. */
  ghost predicate WroteBack(h: Hash, time: Clock, w: World, un: seq<Stored>, call: AnchorCall,
                            before: map<Str, Stored>, after: map<Str, Stored>) {
    && OnlyTouches(before, after, Saved(time, w, un, call))
    && forall m :: m in Saved(time, w, un, call) ==>
         Key(m) in after && ProvedIn(h, time, m, after[Key(m)], call, w.send(call).value)
  }

  /** The call was accepted and every receipt of its batch written back. */
  predicate Whole(time: Clock, w: World, un: seq<Stored>, c: AnchorCall) {
    w.send(c).Some? && |Members(time, un, c.batchId)| <= w.puts(c)
  }

  /** One batch of the outer loop: no call if the script refuses it. */
  method AnchorOne(h: Hash, time: Clock, w: World, ghost un: seq<Stored>, records0: map<Str, Stored>,
                   id: int, members: seq<Stored>)
    returns (call: Option<AnchorCall>, records: map<Str, Stored>, whole: bool)
    requires Listed(records0, un) && members == Members(time, un, id)
    ensures call == CallFor(h, id, members)
    ensures call.None? ==> records == records0 && !whole
    ensures call.Some? ==> WroteBack(h, time, w, un, call.value, records0, records)
    ensures call.Some? ==> (whole <==> Whole(time, w, un, call.value))
  {
    records := records0;
    MembersAre(time, un, id);
    MembersListed(records0, time, un, id);
    var batch := BuildAnchorBatch(h, id, Digests(members));
    var policyHash := PolicyHashOf(members);
    if batch.None? || policyHash.None? { return None, records, false; }
    var request := AnchorCall(id, batch.value.root, policyHash.value, BatchKey(id));
    var answer := w.send(request);
    if answer.None? { return Some(request), records, false; }
    MembersProved(h, time, id, members, batch.value, policyHash.value, answer.value);
    records, whole := PutMembers(records0, members, batch.value, policyHash.value, answer.value, w.puts(request));
    return Some(request), records, whole;
  }

  lemma KeyOutside(time: Clock, un: seq<Stored>, id: int, r: Stored)
    requires DistinctKeys(un) && r in un && Hour(time, r) != id
    ensures forall m :: m in Members(time, un, id) ==> Key(m) != Key(r)
  {
    MembersAre(time, un, id);
  }

  /** One receipt across one more call. */
  lemma FateStep(h: Hash, time: Clock, w: World, un: seq<Stored>, calls: seq<AnchorCall>, call: AnchorCall,
                 records0: map<Str, Stored>, records: map<Str, Stored>, r: Stored)
    requires DistinctKeys(un) && r in un && Key(r) in records0 && Fate(h, time, w, un, calls, r, records0[Key(r)])
    requires forall c :: c in calls ==> c.batchId != call.batchId
    requires WroteBack(h, time, w, un, call, records0, records)
    ensures Key(r) in records && Fate(h, time, w, un, calls + [call], r, records[Key(r)])
  {
    var saved := Saved(time, w, un, call);
    MembersAre(time, un, call.batchId);
    if r in saved {
      forall c | c in calls ensures r !in Saved(time, w, un, c) { MembersAre(time, un, c.batchId); }
      assert call in calls + [call];
    } else {
      assert forall m :: m in saved ==> m in un && Key(m) != Key(r);
      assert records[Key(r)] == records0[Key(r)];
    }
  }

  /** The state of the run between two batches. */
  ghost predicate Progress(h: Hash, time: Clock, w: World, plan: Plan, un: seq<Stored>, ids: seq<int>,
                           calls: seq<AnchorCall>, records0: map<Str, Stored>, records: map<Str, Stored>) {
    CallsOf(plan, ids, calls) && Fates(h, time, w, un, calls, records) && OnlyTouches(records0, records, un)
  }

  lemma ProgressStep(h: Hash, time: Clock, w: World, plan: Plan, un: seq<Stored>, ids: seq<int>, calls: seq<AnchorCall>,
                     records0: map<Str, Stored>, records: map<Str, Stored>, call: AnchorCall, after: map<Str, Stored>)
    requires HoursOf(time, un, ids) && DistinctKeys(un) && |calls| < |ids|
    requires Progress(h, time, w, plan, un, ids, calls, records0, records)
    requires plan(ids[|calls|]) == Some(call) && call.batchId == ids[|calls|]
    requires WroteBack(h, time, w, un, call, records, after)
    ensures Progress(h, time, w, plan, un, ids, calls + [call], records0, after)
  {
    CallsAreEarlier(time, plan, un, ids, calls, |calls|);
    FatesStep(h, time, w, un, calls, call, records, after);
    CallsOfStep(plan, ids, calls, call);
    TouchesStep(time, w, records0, records, after, un, call);
  }

  lemma FatesStep(h: Hash, time: Clock, w: World, un: seq<Stored>, calls: seq<AnchorCall>, call: AnchorCall,
                  records: map<Str, Stored>, after: map<Str, Stored>)
    requires DistinctKeys(un) && Fates(h, time, w, un, calls, records)
    requires forall c :: c in calls ==> c.batchId != call.batchId
    requires WroteBack(h, time, w, un, call, records, after)
    ensures Fates(h, time, w, un, calls + [call], after)
  {
    forall r | r in un ensures Key(r) in after && Fate(h, time, w, un, calls + [call], r, after[Key(r)]) {
      FateStep(h, time, w, un, calls, call, records, after, r);
    }
  }

  lemma CallsOfStep(plan: Plan, ids: seq<int>, calls: seq<AnchorCall>, call: AnchorCall)
    requires CallsOf(plan, ids, calls) && |calls| < |ids|
    requires plan(ids[|calls|]) == Some(call) && call.batchId == ids[|calls|]
    ensures CallsOf(plan, ids, calls + [call])
  {
  }

  lemma TouchesStep(time: Clock, w: World, records0: map<Str, Stored>, records: map<Str, Stored>,
                    after: map<Str, Stored>, un: seq<Stored>, call: AnchorCall)
    requires OnlyTouches(records0, records, un) && OnlyTouches(records, after, Saved(time, w, un, call))
    ensures OnlyTouches(records0, after, un)
  {
    MembersAre(time, un, call.batchId);
  }

  /** The whole run: the unanchored receipts, grouped by hour, hour by hour. */
  method AnchorAll(h: Hash, time: Clock, w: World, records0: map<Str, Stored>, rs: seq<Stored>)
    returns (records: map<Str, Stored>, calls: seq<AnchorCall>, completed: bool, ids: seq<int>)
    requires Listed(records0, rs) && forall r :: r in rs ==> records0[Key(r)] == r
    ensures HoursOf(time, Unanchored(rs), ids)
    ensures Progress(h, time, w, PlanOf(h, time, Unanchored(rs)), Unanchored(rs), ids, calls, records0, records)
    ensures Outcome(time, w, Unanchored(rs), PlanOf(h, time, Unanchored(rs)), ids, calls, completed)
  {
    var un := Unanchored(rs);
    UnanchoredKeys(rs);
    var order, groups := GroupByBatch(time, un);
    var sorted := Sorting.Sort(IntBefore, order);
    AscendingHours(time, un, order, groups);
    ids := sorted;
    records, calls, completed := RunBatches(h, time, w, PlanOf(h, time, un), un, sorted, groups, records0);
  }

  ghost predicate AllWhole(time: Clock, w: World, un: seq<Stored>, calls: seq<AnchorCall>) {
    forall i :: 0 <= i < |calls| ==> Whole(time, w, un, calls[i])
  }

  /** How a run ends: after the last batch, at a batch it refuses, or at a call that failed or whose
      receipts were not all written back. */
  ghost predicate Outcome(time: Clock, w: World, un: seq<Stored>, plan: Plan, ids: seq<int>, calls: seq<AnchorCall>,
                          completed: bool) {
    if completed then |calls| == |ids| && AllWhole(time, w, un, calls)
    else
      || (|calls| < |ids| && AllWhole(time, w, un, calls) && plan(ids[|calls|]).None?)
      || (calls != [] && AllWhole(time, w, un, calls[..|calls| - 1]) && !Whole(time, w, un, calls[|calls| - 1]))
  }

  /** The outer loop of the script. */
  method RunBatches(h: Hash, time: Clock, w: World, ghost plan: Plan, ghost un: seq<Stored>, ids: seq<int>,
                    groups: map<int, seq<Stored>>, records0: map<Str, Stored>)
    returns (records: map<Str, Stored>, calls: seq<AnchorCall>, completed: bool)
    requires HoursOf(time, un, ids) && DistinctKeys(un)
    requires forall r :: r in un ==> Key(r) in records0 && records0[Key(r)] == r
    requires forall id :: id in ids ==> id in groups && groups[id] == Members(time, un, id)
    requires plan == PlanOf(h, time, un)
    ensures Progress(h, time, w, plan, un, ids, calls, records0, records)
    ensures Outcome(time, w, un, plan, ids, calls, completed)
  {
    records, calls := records0, [];
    for n := 0 to |ids|
      invariant |calls| == n && AllWhole(time, w, un, calls)
      invariant Progress(h, time, w, plan, un, ids, calls, records0, records)
    {
      assert ids[n] in ids;
      var call, whole;
      records, call, whole := AnchorNext(h, time, w, plan, un, ids, calls, records0, records, ids[n], groups[ids[n]]);
      if call.None? { return records, calls, false; }
      WholeStep(time, w, un, calls, call.value);
      calls := calls + [call.value];
      if !whole { return records, calls, false; }
    }
    return records, calls, true;
  }

  lemma WholeStep(time: Clock, w: World, un: seq<Stored>, calls: seq<AnchorCall>, call: AnchorCall)
    requires AllWhole(time, w, un, calls)
    ensures var more := calls + [call];
      && more[..|more| - 1] == calls && more[|more| - 1] == call
      && (Whole(time, w, un, call) ==> AllWhole(time, w, un, more))
  {
  }

  /** The body of the outer loop. */
  method AnchorNext(h: Hash, time: Clock, w: World, ghost plan: Plan, ghost un: seq<Stored>, ghost ids: seq<int>,
                    ghost calls: seq<AnchorCall>, ghost records0: map<Str, Stored>, records: map<Str, Stored>,
                    id: int, members: seq<Stored>)
    returns (after: map<Str, Stored>, call: Option<AnchorCall>, whole: bool)
    requires HoursOf(time, un, ids) && |calls| < |ids| && id == ids[|calls|] && members == Members(time, un, id)
    requires plan == PlanOf(h, time, un)
    requires DistinctKeys(un)
    requires Progress(h, time, w, plan, un, ids, calls, records0, records)
    ensures call == plan(id)
    ensures call.None? ==> Progress(h, time, w, plan, un, ids, calls, records0, after)
    ensures call.Some? ==> Progress(h, time, w, plan, un, ids, calls + [call.value], records0, after)
    ensures call.Some? ==> (whole <==> Whole(time, w, un, call.value))
  {
    call, after, whole := AnchorOne(h, time, w, un, records, id, members);
    if call.Some? { ProgressStep(h, time, w, plan, un, ids, calls, records0, records, call.value, after); }
  }

  lemma CallsAreEarlier(time: Clock, plan: Plan, un: seq<Stored>, ids: seq<int>, calls: seq<AnchorCall>, n: nat)
    requires HoursOf(time, un, ids) && CallsOf(plan, ids, calls) && |calls| <= n < |ids|
    ensures forall c :: c in calls ==> c.batchId < ids[n]
  {
    forall c | c in calls ensures c.batchId < ids[n] {
      var i :| 0 <= i < |calls| && calls[i] == c;
    }
  }

  lemma AscendingHours(time: Clock, un: seq<Stored>, order: seq<int>, groups: map<int, seq<Stored>>)
    requires Sorting.Distinct(order)
    requires forall id :: id in order <==> id in groups
    requires forall id :: id in groups ==> groups[id] == Members(time, un, id) != []
    requires forall id :: id !in groups ==> Members(time, un, id) == []
    ensures HoursOf(time, un, Sorting.Sort(IntBefore, order))
    ensures forall id :: id in Sorting.Sort(IntBefore, order) ==> id in groups
  {
    var s := Sorting.Sort(IntBefore, order);
    Sorting.SortSorted(IntBefore, order);
    Sorting.InMultiset(s, order);
    Sorting.SortDistinct(IntBefore, order);
    forall i, j | 0 <= i < j < |s| ensures s[i] < s[j] {
      assert !IntBefore(s[j], s[i]);
      assert s[i] != s[j];
    }
    forall id ensures id in s <==> exists r :: r in un && Hour(time, r) == id {
      MembersAre(time, un, id);
      if id in s { assert groups[id][0] in groups[id]; }
      if r :| r in un && Hour(time, r) == id { assert r in Members(time, un, id); }
    }
  }

  // ------------------------------------------------------ what a run guarantees

  /** A receipt whose call was accepted and written back whole has its own hour's batch id and a
      proof against the root that was sent for it. */
  lemma WholeCallProves(h: Hash, time: Clock, w: World, plan: Plan, un: seq<Stored>, ids: seq<int>,
                        calls: seq<AnchorCall>, records: map<Str, Stored>, n: nat, r: Stored)
    requires CallsOf(plan, ids, calls) && Fates(h, time, w, un, calls, records)
    requires n < |calls| && Whole(time, w, un, calls[n]) && r in un && Hour(time, r) == ids[n]
    ensures Key(r) in records && ProvedIn(h, time, r, records[Key(r)], calls[n], w.send(calls[n]).value)
  {
    MembersAre(time, un, ids[n]);
    assert r in Saved(time, w, un, calls[n]);
    assert calls[n] in calls;
  }

  /** A completed run leaves every receipt it found unanchored so. */
  lemma CompletedRunProvesAll(h: Hash, time: Clock, w: World, plan: Plan, un: seq<Stored>, ids: seq<int>,
                              calls: seq<AnchorCall>, records: map<Str, Stored>, r: Stored) returns (call: AnchorCall)
    requires HoursOf(time, un, ids) && CallsOf(plan, ids, calls) && Outcome(time, w, un, plan, ids, calls, true)
    requires Fates(h, time, w, un, calls, records) && r in un
    ensures call in calls && w.send(call).Some? && Key(r) in records
    ensures ProvedIn(h, time, r, records[Key(r)], call, w.send(call).value)
  {
    assert Hour(time, r) in ids;
    var i :| 0 <= i < |ids| && ids[i] == Hour(time, r);
    WholeCallProves(h, time, w, plan, un, ids, calls, records, i, r);
    call := calls[i];
  }

  /** A run that stops early still leaves every receipt of an hour before its last call so. */
  lemma StoppedRunProvesEarlier(h: Hash, time: Clock, w: World, plan: Plan, un: seq<Stored>, ids: seq<int>,
                                calls: seq<AnchorCall>, records: map<Str, Stored>, r: Stored) returns (call: AnchorCall)
    requires HoursOf(time, un, ids) && CallsOf(plan, ids, calls) && Outcome(time, w, un, plan, ids, calls, false)
    requires Fates(h, time, w, un, calls, records) && r in un
    requires calls != [] && Hour(time, r) < calls[|calls| - 1].batchId
    ensures call in calls && w.send(call).Some? && Key(r) in records
    ensures ProvedIn(h, time, r, records[Key(r)], call, w.send(call).value)
  {
    assert Hour(time, r) in ids;
    var i :| 0 <= i < |ids| && ids[i] == Hour(time, r);
    assert i < |calls| - 1 && calls[..|calls| - 1][i] == calls[i];
    WholeCallProves(h, time, w, plan, un, ids, calls, records, i, r);
    call := calls[i];
  }

  /** A batch of mixed policies stops the run before it or any later batch is sent. */
  lemma MixedPolicyStops(h: Hash, time: Clock, un: seq<Stored>, ids: seq<int>, calls: seq<AnchorCall>, r: Stored,
                         q: Stored)
    requires HoursOf(time, un, ids) && CallsOf(PlanOf(h, time, un), ids, calls)
    requires r in un && q in un && Hour(time, r) == Hour(time, q)
    requires Lower(r.receipt.policyHash) != Lower(q.receipt.policyHash)
    ensures |calls| < |ids| && forall c :: c in calls ==> c.batchId < Hour(time, r)
  {
    var id := Hour(time, r);
    MixedPlanned(h, time, un, r, q);
    assert id in ids;
    var m :| 0 <= m < |ids| && ids[m] == id;
    assert |calls| <= m;
    CallsAreEarlier(time, PlanOf(h, time, un), un, ids, calls, m);
  }

  lemma MixedPlanned(h: Hash, time: Clock, un: seq<Stored>, r: Stored, q: Stored)
    requires r in un && q in un && Hour(time, r) == Hour(time, q)
    requires Lower(r.receipt.policyHash) != Lower(q.receipt.policyHash)
    ensures PlanOf(h, time, un)(Hour(time, r)).None?
  {
    var id := Hour(time, r);
    MembersAre(time, un, id);
    OnePolicy(Members(time, un, id));
  }

  /** One call per hour: strictly ascending ids, and no two calls share an idempotency key. */
  lemma CallsAscend(h: Hash, time: Clock, un: seq<Stored>, ids: seq<int>, calls: seq<AnchorCall>, i: nat, j: nat)
    requires HoursOf(time, un, ids) && CallsOf(PlanOf(h, time, un), ids, calls) && i < j < |calls|
    ensures calls[i].batchId < calls[j].batchId && calls[i].idempotencyKey != calls[j].idempotencyKey
  {
    PlannedKey(h, time, un, ids[i]);
    PlannedKey(h, time, un, ids[j]);
    BatchKeysDiffer(ids[i], ids[j]);
  }

  lemma PlannedKey(h: Hash, time: Clock, un: seq<Stored>, id: int)
    requires PlanOf(h, time, un)(id).Some?
    ensures PlanOf(h, time, un)(id).value.idempotencyKey == BatchKey(id)
  {
  }

  lemma BatchKeysDiffer(a: int, b: int)
    requires a != b
    ensures BatchKey(a) != BatchKey(b)
  {
    if BatchKey(a) == BatchKey(b) {
      PrefixCancels(BATCH_KEY_PREFIX, EmitNum(a), EmitNum(b));
      EmitNumInjective(a, b);
    }
  }

  lemma PrefixCancels(p: Str, a: Str, b: Str)
    requires p + a == p + b
    ensures a == b
  {
    Parts(p, a);
    Parts(p, b);
  }

  lemma EmitNumInjective(a: int, b: int)
    requires EmitNum(a) == EmitNum(b)
    ensures a == b
  {
    var m: nat, n: nat := if a < 0 then -a else a, if b < 0 then -b else b;
    BigDec(m);
    BigDec(n);
    assert IsDigit(Dec(m)[0]) && IsDigit(Dec(n)[0]);
    if a < 0 {
      Parts(['-' as int], Dec(m));
      Parts(['-' as int], Dec(n));
    }
  }
}
