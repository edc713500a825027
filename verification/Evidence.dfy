/** The whole chain, from an anchored root back to a receipt: for the hourly batches and for those
    sealed off the log. */
module Evidence {
  import opened Text
  import opened Json
  import opened Canonical
  import opened Hex
  import opened Merkle
  import opened Receipts
  import opened Anchoring
  import opened AnchorRun
  import AnchorConsumer
  import Sorting
  import Utf8

  // --------------------------------------------------- payloads are long texts

  function KeyTotal(ms: seq<Member>): nat {
    if ms == [] then 0 else |ms[0].key| + KeyTotal(ms[1..])
  }

  lemma {:induction false} KeyTotalInsert(m: Member, ms: seq<Member>)
    ensures KeyTotal(Sorting.Insert(MemberBefore, m, ms)) == |m.key| + KeyTotal(ms)
  {
    if ms != [] && MemberBefore(ms[0], m) {
      KeyTotalInsert(m, ms[1..]);
      var rest := Sorting.Insert(MemberBefore, m, ms[1..]);
      assert ([ms[0]] + rest)[1..] == rest;
    } else {
      assert ([m] + ms)[1..] == ms;
    }
  }

  lemma {:induction false} KeyTotalSort(ms: seq<Member>)
    ensures KeyTotal(Sorting.Sort(MemberBefore, ms)) == KeyTotal(ms)
  {
    if ms != [] {
      KeyTotalSort(ms[1..]);
      KeyTotalInsert(ms[0], Sorting.Sort(MemberBefore, ms[1..]));
    }
  }

  lemma {:induction false} KeyTotalCanon(ms: seq<Member>)
    ensures KeyTotal(CanonMembers(ms)) == KeyTotal(ms)
  {
    if ms != [] {
      KeyTotalCanon(ms[1..]);
      assert CanonMembers(ms)[1..] == CanonMembers(ms[1..]);
    }
  }

  lemma {:induction false} QuoteBodyLong(s: Str)
    ensures |QuoteBody(s)| >= |s|
    decreases |s|
  {
    if s != [] {
      if StartsWithPair(s) { QuoteBodyLong(s[2..]); } else { QuoteBodyLong(s[1..]); }
    }
  }

  lemma {:induction false} MembersLong(ms: seq<Member>)
    ensures |EmitMembers(ms)| >= KeyTotal(ms)
  {
    if ms != [] {
      MembersLong(ms[1..]);
      QuoteBodyLong(ms[0].key);
      assert |EmitMember(ms[0])| >= |Quote(ms[0].key)| >= |ms[0].key|;
    }
  }

  lemma {:induction false} EncodeLong(s: Str)
    ensures |Utf8.Encode(s)| >= |s|
    decreases |s|
  {
    if s != [] {
      if StartsWithPair(s) { EncodeLong(s[2..]); } else { EncodeLong(s[1..]); }
    }
  }

  lemma KeyTotalFrom(ms: seq<Member>, k: nat)
    requires k < |ms|
    ensures KeyTotal(ms[k..]) == |ms[k].key| + KeyTotal(ms[k + 1..])
  {
    assert ms[k..][1..] == ms[k + 1..];
  }

  lemma NineKeys(ms: seq<Member>)
    requires |ms| == 10
    ensures KeyTotal(ms) >= |ms[0].key| + |ms[1].key| + |ms[2].key| + |ms[3].key| + |ms[4].key| + |ms[5].key|
                            + |ms[6].key| + |ms[7].key| + |ms[8].key|
  {
    forall k | 0 <= k < 9 ensures KeyTotal(ms[k..]) == |ms[k].key| + KeyTotal(ms[k + 1..]) { KeyTotalFrom(ms, k); }
    assert ms[0..] == ms;
  }

  lemma PayloadKeyTotal(r: Receipt)
    ensures KeyTotal(DigestPayload(r).members) > 64
  {
    PayloadKeysListed(r);
    var ms, ks := DigestPayload(r).members, PayloadKeys();
    NineKeys(ms);
    assert |ks[0]| == 8 && |ks[1]| == 10 && |ks[2]| == 10 && |ks[3]| == 5 && |ks[4]| == 7;
    assert |ks[5]| == 7 && |ks[6]| == 7 && |ks[7]| == 10 && |ks[8]| == 9;
    forall k | 0 <= k < 10 ensures ms[k].key == ks[k] { assert Keys(ms)[k] == ks[k]; }
  }

  lemma ObjectLong(ms: seq<Member>)
    ensures |CanonicalBytes(Obj(ms))| >= KeyTotal(ms)
  {
    var sorted := Sorting.Sort(MemberBefore, CanonMembers(ms));
    KeyTotalCanon(ms);
    KeyTotalSort(CanonMembers(ms));
    MembersLong(sorted);
    EncodeLong(Emit(Obj(sorted)));
  }

  /** The bytes of a receipt are longer than the two nodes of an inner preimage. */
  lemma PayloadLong(r: Receipt)
    ensures |CanonicalBytes(DigestPayload(r))| > 64
  {
    PayloadKeyTotal(r);
    ObjectLong(DigestPayload(r).members);
  }

  // -------------------------------------------------------- and nodes are short

  ghost predicate NodePairs(inputs: set<Bytes>) { forall a :: a in inputs ==> |a| == 64 }

  lemma {:induction false} TreeHashesPairs(h: Hash, level: seq<Bytes>)
    requires Merkle.Digests(level)
    ensures NodePairs(TreeInputs(h, level))
    decreases |level|
  {
    if |level| > 1 {
      NextDigests(h, level);
      TreeHashesPairs(h, Next(h, level));
    }
  }

  lemma {:induction false} ProofHashesPairs(h: Hash, x: Bytes, p: seq<Bytes>)
    requires |x| == 32 && Merkle.Digests(p)
    ensures NodePairs(ProofInputs(h, x, p))
  {
    if p != [] { ProofHashesPairs(h, x, p[..|p| - 1]); }
  }

  // ------------------------------------------------- a tree over receipt digests

  function ReceiptBytes(r: Receipt): Bytes { CanonicalBytes(DigestPayload(r)) }

  /** Every leaf is the digest of one of these receipts. */
  ghost predicate ReceiptNodes(h: Hash, nodes: seq<Bytes>, rs: seq<Receipt>) {
    forall x :: x in nodes ==> exists r :: r in rs && x == h(ReceiptBytes(r))
  }

  ghost function AllBytes(rs: seq<Receipt>): set<Bytes> { set k | 0 <= k < |rs| :: ReceiptBytes(rs[k]) }

  /** Everything that is hashed when the tree is built and the receipt is checked against it. */
  ghost function Hashed(h: Hash, nodes: seq<Bytes>, rs: seq<Receipt>, r: Receipt, p: seq<Bytes>): set<Bytes> {
    TreeInputs(h, nodes) + ProofInputs(h, h(ReceiptBytes(r)), p) + AllBytes(rs) + {ReceiptBytes(r)}
  }

  lemma ReceiptsLeafTyped(h: Hash, r: Receipt, pairs: set<Bytes>, inputs: set<Bytes>)
    requires NodePairs(pairs) && pairs <= inputs && ReceiptBytes(r) in inputs && CollisionFree(h, inputs)
    ensures LeafTyped(h, h(ReceiptBytes(r)), pairs)
  {
    PayloadLong(r);
  }

  lemma SameHashSameReceipt(h: Hash, r: Receipt, q: Receipt)
    requires NoCollision(h, ReceiptBytes(r), ReceiptBytes(q)) && h(ReceiptBytes(r)) == h(ReceiptBytes(q))
    ensures r == q
  {
    ReceiptDigestCommits(h, r, q);
  }

  lemma NodesAreDigests(h: Hash, nodes: seq<Bytes>, rs: seq<Receipt>)
    requires ReceiptNodes(h, nodes, rs)
    ensures Merkle.Digests(nodes) && NodePairs(TreeInputs(h, nodes))
  {
    forall i | 0 <= i < |nodes| ensures |nodes[i]| == 32 { assert nodes[i] in nodes; }
    TreeHashesPairs(h, nodes);
  }

  lemma NodesLeafTyped(h: Hash, nodes: seq<Bytes>, rs: seq<Receipt>, pairs: set<Bytes>, inputs: set<Bytes>)
    requires ReceiptNodes(h, nodes, rs) && NodePairs(pairs) && pairs <= inputs && AllBytes(rs) <= inputs
    requires CollisionFree(h, inputs)
    ensures forall x :: x in nodes ==> LeafTyped(h, x, pairs)
  {
    forall x | x in nodes ensures LeafTyped(h, x, pairs) {
      var r :| r in rs && x == h(ReceiptBytes(r));
      assert ReceiptBytes(r) in AllBytes(rs);
      ReceiptsLeafTyped(h, r, pairs, inputs);
    }
  }

  /** What soundness needs, of the checked receipt and of every leaf. */
  lemma AllLeafTyped(h: Hash, nodes: seq<Bytes>, rs: seq<Receipt>, r: Receipt, p: seq<Bytes>)
    requires ReceiptNodes(h, nodes, rs) && Merkle.Digests(p) && CollisionFree(h, Hashed(h, nodes, rs, r, p))
    ensures var pairs := TreeInputs(h, nodes) + ProofInputs(h, h(ReceiptBytes(r)), p);
      && Merkle.Digests(nodes) && CollisionFree(h, pairs) && LeafTyped(h, h(ReceiptBytes(r)), pairs)
      && forall x :: x in nodes ==> LeafTyped(h, x, pairs)
  {
    var x := h(ReceiptBytes(r));
    var inputs, pairs := Hashed(h, nodes, rs, r, p), TreeInputs(h, nodes) + ProofInputs(h, x, p);
    NodesAreDigests(h, nodes, rs);
    ProofHashesPairs(h, x, p);
    ReceiptsLeafTyped(h, r, pairs, inputs);
    NodesLeafTyped(h, nodes, rs, pairs, inputs);
  }

  lemma ProvedIsLeaf(h: Hash, nodes: seq<Bytes>, rs: seq<Receipt>, r: Receipt, p: seq<Bytes>)
    requires nodes != [] && ReceiptNodes(h, nodes, rs) && Merkle.Digests(p)
      && CollisionFree(h, Hashed(h, nodes, rs, r, p))
    requires Process(h, h(ReceiptBytes(r)), p) == Root(h, nodes)
    ensures h(ReceiptBytes(r)) in nodes
  {
    var x := h(ReceiptBytes(r));
    AllLeafTyped(h, nodes, rs, r, p);
    ProofSound(h, nodes, x, p, TreeInputs(h, nodes) + ProofInputs(h, x, p));
  }

  lemma LeafIsReceipt(h: Hash, nodes: seq<Bytes>, rs: seq<Receipt>, r: Receipt, inputs: set<Bytes>)
    requires ReceiptNodes(h, nodes, rs) && h(ReceiptBytes(r)) in nodes
    requires CollisionFree(h, inputs) && AllBytes(rs) <= inputs && ReceiptBytes(r) in inputs
    ensures r in rs
  {
    var q :| q in rs && h(ReceiptBytes(r)) == h(ReceiptBytes(q));
    assert ReceiptBytes(q) in AllBytes(rs);
    SameHashSameReceipt(h, q, r);
  }

  /** If a receipt's digest verifies, with a proof of 32-byte steps, against the root of a tree over
      receipt digests, then it is a leaf and the receipt is one of those, field for field. That
      receipt digests are no inner nodes is not assumed: a receipt's text is too long to be an inner
      preimage. */
  lemma VerifiedReceiptIsLeaf(h: Hash, nodes: seq<Bytes>, rs: seq<Receipt>, r: Receipt, proof: seq<Str>)
    requires nodes != [] && ReceiptNodes(h, nodes, rs)
    requires ReadAll(proof).Some? && Merkle.Digests(ReadAll(proof).value)
    requires CollisionFree(h, Hashed(h, nodes, rs, r, ReadAll(proof).value))
    requires VerifyProof(h, ReceiptDigest(h, r), proof, ToHex(Root(h, nodes))) == Some(true)
    ensures r in rs && h(ReceiptBytes(r)) in nodes
  {
    var p, x := ReadAll(proof).value, h(ReceiptBytes(r));
    NodesAreDigests(h, nodes, rs);
    ToHexIsDigest(x);
    RootIsDigest(h, nodes);
    VerifyIsProcess(h, ReceiptDigest(h, r), proof, x, p, Root(h, nodes));
    ProvedIsLeaf(h, nodes, rs, r, p);
    LeafIsReceipt(h, nodes, rs, r, Hashed(h, nodes, rs, r, p));
  }

  /** The leaves under these texts, none if they cannot be read. */
  function LeafNodes(texts: seq<Str>): seq<Bytes> {
    match ReadAll(texts)
    case None => []
    case Some(nodes) => nodes
  }

  // --------------------------------------------------------- the hourly batches

  /** Stored receipts carry their own digests. */
  ghost predicate SelfDigested(h: Hash, members: seq<Stored>) {
    forall i :: 0 <= i < |members| ==> members[i].digest == ReceiptDigest(h, members[i].receipt)
  }

  function ReceiptsOf(members: seq<Stored>): (rs: seq<Receipt>)
    ensures |rs| == |members| && forall i :: 0 <= i < |rs| ==> rs[i] == members[i].receipt
  {
    seq(|members|, i requires 0 <= i < |members| => members[i].receipt)
  }

  /** The leaves of the tree over a batch. */
  function Nodes(members: seq<Stored>): seq<Bytes> { LeafNodes(Sorting.Sort(DigestBefore, AnchorRun.Digests(members))) }

  /** The root a call carries. */
  lemma CallRoot(h: Hash, id: int, members: seq<Stored>)
    requires CallFor(h, id, members).Some?
    ensures Nodes(members) != []
    ensures ReadAll(Sorting.Sort(DigestBefore, AnchorRun.Digests(members))) == Some(Nodes(members))
    ensures CallFor(h, id, members).value.root == ToHex(Root(h, Nodes(members)))
  {
  }

  lemma NodeIsHashed(h: Hash, members: seq<Stored>, i: nat) returns (k: nat)
    requires SelfDigested(h, members) && i < |Nodes(members)|
    ensures k < |members| && Nodes(members)[i] == h(ReceiptBytes(members[k].receipt))
  {
    var ds := AnchorRun.Digests(members);
    var sorted := Sorting.Sort(DigestBefore, ds);
    Sorting.InMultiset(sorted, ds);
    assert sorted[i] in ds;
    k :| 0 <= k < |ds| && ds[k] == sorted[i];
    ToHexIsDigest(h(ReceiptBytes(members[k].receipt)));
  }

  lemma BatchNodes(h: Hash, members: seq<Stored>)
    requires SelfDigested(h, members)
    ensures ReceiptNodes(h, Nodes(members), ReceiptsOf(members))
  {
    var nodes, rs := Nodes(members), ReceiptsOf(members);
    forall x | x in nodes ensures exists r :: r in rs && x == h(ReceiptBytes(r)) {
      var i :| 0 <= i < |nodes| && nodes[i] == x;
      var k := NodeIsHashed(h, members, i);
      assert rs[k] in rs;
    }
  }

  lemma VerifiedReceiptIsMember(h: Hash, members: seq<Stored>, r: Receipt, proof: seq<Str>) returns (k: nat)
    requires SelfDigested(h, members) && Nodes(members) != []
    requires ReadAll(proof).Some? && Merkle.Digests(ReadAll(proof).value)
    requires CollisionFree(h, Hashed(h, Nodes(members), ReceiptsOf(members), r, ReadAll(proof).value))
    requires VerifyProof(h, ReceiptDigest(h, r), proof, ToHex(Root(h, Nodes(members)))) == Some(true)
    ensures k < |members| && members[k].receipt == r
  {
    BatchNodes(h, members);
    VerifiedReceiptIsLeaf(h, Nodes(members), ReceiptsOf(members), r, proof);
    k :| 0 <= k < |members| && ReceiptsOf(members)[k] == r;
  }

  /** If a receipt's digest verifies against the root sent for a batch, then the receipt is one of
      that batch. */
  lemma VerifiedReceiptWasAnchored(h: Hash, id: int, members: seq<Stored>, r: Receipt, proof: seq<Str>) returns (k: nat)
    requires SelfDigested(h, members) && CallFor(h, id, members).Some?
    requires ReadAll(proof).Some? && Merkle.Digests(ReadAll(proof).value)
    requires CollisionFree(h, Hashed(h, Nodes(members), ReceiptsOf(members), r, ReadAll(proof).value))
    requires VerifyProof(h, ReceiptDigest(h, r), proof, CallFor(h, id, members).value.root) == Some(true)
    ensures k < |members| && members[k].receipt == r
  {
    CallRoot(h, id, members);
    k := VerifiedReceiptIsMember(h, members, r, proof);
  }

  /** Of a whole run: a receipt that verifies against a root the run has sent is one of the receipts
      the run found unanchored, and its decision falls into the hour of that root. */
  lemma VerifiedAgainstARun(h: Hash, time: Clock, un: seq<Stored>, ids: seq<int>, calls: seq<AnchorCall>, n: nat,
                            r: Receipt, proof: seq<Str>)
    requires CallsOf(PlanOf(h, time, un), ids, calls) && n < |calls| && SelfDigested(h, Members(time, un, ids[n]))
    requires ReadAll(proof).Some? && Merkle.Digests(ReadAll(proof).value)
    requires var members := Members(time, un, ids[n]);
      CollisionFree(h, Hashed(h, Nodes(members), ReceiptsOf(members), r, ReadAll(proof).value))
    requires VerifyProof(h, ReceiptDigest(h, r), proof, calls[n].root) == Some(true)
    ensures exists m :: m in un && m.receipt == r && Hour(time, m) == calls[n].batchId
  {
    var members := Members(time, un, ids[n]);
    assert CallFor(h, ids[n], members) == Some(calls[n]);
    var k := VerifiedReceiptWasAnchored(h, ids[n], members, r, proof);
    MembersAre(time, un, ids[n]);
    assert members[k] in members;
  }

  // ------------------------------------------------------- the batches off the log

  lemma {:induction false} LeafAccepted(anchors: seq<AnchorConsumer.Anchor>, k: nat, x: Str)
    requires k < |anchors| && x in anchors[k].leaves
    ensures x in AnchorConsumer.Leaves(anchors)
  {
    if k < |anchors| - 1 { LeafAccepted(anchors[..|anchors| - 1], k, x); }
  }

  /** The digests on the log are those of these receipts. */
  ghost predicate DigestsAre(h: Hash, digests: seq<Str>, rs: seq<Receipt>) {
    forall x :: x in digests ==> exists r :: r in rs && x == ReceiptDigest(h, r)
  }

  lemma SealedNodes(h: Hash, s: AnchorConsumer.State, k: nat, rs: seq<Receipt>)
    requires AnchorConsumer.Conserved(h, s) && k < |s.anchors| && DigestsAre(h, s.accepted, rs)
    ensures var a := s.anchors[k];
      && LeafNodes(a.leaves) != [] && a.root == ToHex(Root(h, LeafNodes(a.leaves)))
      && ReadAll(a.leaves) == Some(LeafNodes(a.leaves))
      && ReceiptNodes(h, LeafNodes(a.leaves), rs)
  {
    var a := s.anchors[k];
    assert AnchorConsumer.Rooted(h, a);
    var nodes := LeafNodes(a.leaves);
    forall x | x in nodes ensures exists r :: r in rs && x == h(ReceiptBytes(r)) {
      var i :| 0 <= i < |nodes| && nodes[i] == x;
      LeafAccepted(s.anchors, k, a.leaves[i]);
      assert a.leaves[i] in AnchorConsumer.Leaves(s.anchors) + s.batch.leaves;
      var r :| r in rs && a.leaves[i] == ReceiptDigest(h, r);
      ToHexIsDigest(h(ReceiptBytes(r)));
    }
  }

  /** The same of the anchoring consumer, after any run over the log: a receipt that verifies against
      a root it has sealed is one whose digest it accepted into that very batch. */
  lemma VerifiedAgainstTheLog(h: Hash, s: AnchorConsumer.State, k: nat, rs: seq<Receipt>, r: Receipt, proof: seq<Str>)
    requires AnchorConsumer.Conserved(h, s) && k < |s.anchors| && DigestsAre(h, s.accepted, rs)
    requires ReadAll(proof).Some? && Merkle.Digests(ReadAll(proof).value)
    requires CollisionFree(h, Hashed(h, LeafNodes(s.anchors[k].leaves), rs, r, ReadAll(proof).value))
    requires VerifyProof(h, ReceiptDigest(h, r), proof, s.anchors[k].root) == Some(true)
    ensures r in rs && ReceiptDigest(h, r) in s.anchors[k].leaves
  {
    var leaves := s.anchors[k].leaves;
    SealedNodes(h, s, k, rs);
    var nodes := LeafNodes(leaves);
    VerifiedReceiptIsLeaf(h, nodes, rs, r, proof);
    var i :| 0 <= i < |nodes| && nodes[i] == h(ReceiptBytes(r));
    LeafAccepted(s.anchors, k, leaves[i]);
    assert leaves[i] in AnchorConsumer.Leaves(s.anchors) + s.batch.leaves;
    var q :| q in rs && leaves[i] == ReceiptDigest(h, q);
    ToHexIsDigest(h(ReceiptBytes(q)));
    assert ReceiptBytes(q) in AllBytes(rs);
    SameHashSameReceipt(h, q, r);
  }
}
