/** The sorted-pair Merkle tree: odd nodes are promoted, proofs carry siblings only.
    The hash is a parameter. Where a result needs collision resistance it is assumed only for the
    byte strings that the tree and the proof at hand feed to the hash. */
module Merkle {
  import opened Text
  import opened Json
  import opened Hex

  // ------------------------------------------------------------ definitions

  /** What hashPair hashes: the two nodes in byte order. */
  function Preimage(a: Bytes, b: Bytes): Bytes {
    if BytesBefore(b, a) then b + a else a + b
  }

  function HashPair(h: Hash, a: Bytes, b: Bytes): Digest {
    h(Preimage(a, b))
  }

  /** One pass over a level: neighbours are paired, a last odd node is promoted unchanged. */
  function Next(h: Hash, level: seq<Bytes>): (r: seq<Bytes>)
    ensures |r| == (|level| + 1) / 2
  {
    if |level| <= 1 then level
    else [HashPair(h, level[0], level[1])] + Next(h, level[2..])
  }

  /** Node j of the next level. */
  lemma {:induction false} NextAt(h: Hash, level: seq<Bytes>, j: nat)
    requires 2 * j < |level|
    ensures j < |Next(h, level)|
    ensures Next(h, level)[j] ==
      if 2 * j + 1 < |level| then HashPair(h, level[2 * j], level[2 * j + 1]) else level[2 * j]
  {
    if j > 0 {
      NextAt(h, level[2..], j - 1);
      assert level[2..][2 * (j - 1)] == level[2 * j];
    }
  }

  function Levels(h: Hash, level: seq<Bytes>): (r: seq<seq<Bytes>>)
    ensures |r| > 0 && r[0] == level && |r| == Height(|level|) + 1
    decreases |level|
  {
    if |level| <= 1 then [level] else [level] + Levels(h, Next(h, level))
  }

  function Root(h: Hash, level: seq<Bytes>): Bytes
    requires level != []
    decreases |level|
  {
    if |level| == 1 then level[0] else Root(h, Next(h, level))
  }

  function Sibling(i: nat): nat { if i % 2 == 1 then i - 1 else i + 1 }

  /** The sibling path of position `i`, bottom-up; promoted nodes contribute nothing. */
  function Path(h: Hash, level: seq<Bytes>, i: nat): (r: seq<Bytes>)
    requires i < |level|
    ensures |r| <= Height(|level|)
    decreases |level|
  {
    if |level| == 1 then []
    else
      (if Sibling(i) < |level| then [level[Sibling(i)]] else []) + Path(h, Next(h, level), i / 2)
  }

  /** What a proof computes from a leaf. */
  function Process(h: Hash, x: Bytes, proof: seq<Bytes>): Bytes {
    if proof == [] then x
    else HashPair(h, Process(h, x, proof[..|proof| - 1]), proof[|proof| - 1])
  }

  // -------------------------------------------------------- height of a tree

  /** Passes needed to get from n nodes to one. */
  function Height(n: nat): nat {
    if n <= 1 then 0 else 1 + Height((n + 1) / 2)
  }

  function Pow2(n: nat): nat { if n == 0 then 1 else 2 * Pow2(n - 1) }

  /** Height is the rounded-up binary logarithm. */
  lemma {:induction false} HeightIsLog(n: nat)
    ensures n <= Pow2(Height(n))
    ensures n > 1 ==> Pow2(Height(n) - 1) < n
  {
    if n > 1 {
      HeightIsLog((n + 1) / 2);
      if n > 2 { assert Pow2(Height(n) - 1) == 2 * Pow2(Height((n + 1) / 2) - 1); }
    }
  }

  // ------------------------------------------------------------ completeness

  lemma PreimageSymmetric(a: Bytes, b: Bytes)
    ensures Preimage(a, b) == Preimage(b, a)
  {
    BytesTotal(a, b);
  }

  /** The node that is smaller at the first byte in which the two differ is hashed first, whichever
      way round they come. */
  lemma SmallerFirst(h: Hash, a: Bytes, b: Bytes, k: nat)
    requires k < |a| && k < |b| && a[..k] == b[..k] && a[k] < b[k]
    ensures HashPair(h, a, b) == HashPair(h, b, a) == h(a + b)
    ensures Root(h, [a, b]) == Root(h, [b, a]) == h(a + b)
  {
    BytesBeforeAt(a, b, k);
    BytesBeforeAt(b, a, k);
    TwoLeaves(h, a, b);
    TwoLeaves(h, b, a);
  }

  lemma TwoLeaves(h: Hash, a: Bytes, b: Bytes)
    ensures Root(h, [a, b]) == HashPair(h, a, b)
  {
    NextAt(h, [a, b], 0);
    assert Next(h, [a, b]) == [HashPair(h, a, b)];
  }

  lemma {:induction false} NextSplits(h: Hash, a: seq<Bytes>, b: seq<Bytes>)
    requires |a| % 2 == 0
    ensures Next(h, a + b) == Next(h, a) + Next(h, b)
  {
    if a == [] {
      assert a + b == b;
    } else {
      assert (a + b)[2..] == a[2..] + b;
      NextSplits(h, a[2..], b);
      if |a| == 2 { assert Next(h, a) == [HashPair(h, a[0], a[1])] + Next(h, []); }
      Assoc([HashPair(h, a[0], a[1])], Next(h, a[2..]), Next(h, b));
      if |a| + |b| == 2 { assert b == []; }
    }
  }

  /** The whole tree from the top: the root of more than one leaf is the hash of two roots, of the
      largest power of two of leaves that leaves some over, and of the rest. */
  lemma {:induction false} RootSplits(h: Hash, leaves: seq<Bytes>, d: nat)
    requires Pow2(d) < |leaves| <= 2 * Pow2(d)
    ensures Root(h, leaves) == HashPair(h, Root(h, leaves[..Pow2(d)]), Root(h, leaves[Pow2(d)..]))
    decreases d
  {
    var a, b := leaves[..Pow2(d)], leaves[Pow2(d)..];
    assert leaves == a + b;
    if d == 0 {
      assert leaves == [a[0], b[0]];
      TwoLeaves(h, a[0], b[0]);
    } else {
      var half := Pow2(d - 1);
      NextSplits(h, a, b);
      var up := Next(h, leaves);
      assert up[..half] == Next(h, a) && up[half..] == Next(h, b);
      RootSplits(h, up, d - 1);
    }
  }

  lemma {:induction false} ProcessFirst(h: Hash, x: Bytes, s: Bytes, rest: seq<Bytes>)
    ensures Process(h, x, [s] + rest) == Process(h, HashPair(h, x, s), rest)
  {
    var p := [s] + rest;
    if rest == [] {
      assert p[..0] == [];
    } else {
      ProcessFirst(h, x, s, rest[..|rest| - 1]);
      assert p[..|p| - 1] == [s] + rest[..|rest| - 1];
    }
  }

  /** A position, its sibling and their parent j one level up. */
  lemma Parent(h: Hash, level: seq<Bytes>, i: nat, j: nat)
    requires i < |level| && |level| > 1 && (i == 2 * j || i == 2 * j + 1)
    ensures i / 2 == j < |Next(h, level)| && Sibling(i) == 4 * j + 1 - i
    ensures Next(h, level)[j] ==
      if Sibling(i) < |level| then HashPair(h, level[i], level[Sibling(i)]) else level[i]
  {
    NextAt(h, level, j);
    if Sibling(i) < |level| { PreimageSymmetric(level[i], level[Sibling(i)]); }
  }

  lemma PathStep(h: Hash, nodes: seq<Bytes>, i: nat)
    requires i < |nodes| && |nodes| > 1
    ensures i / 2 < |Next(h, nodes)|
    ensures Sibling(i) < |nodes| ==> Path(h, nodes, i) == [nodes[Sibling(i)]] + Path(h, Next(h, nodes), i / 2)
    ensures Sibling(i) >= |nodes| ==> Path(h, nodes, i) == Path(h, Next(h, nodes), i / 2)
  {
    Parts([], Path(h, Next(h, nodes), i / 2));
  }

  /** Every leaf of every tree, whatever its size, is proved by its sibling path. */
  lemma {:induction false} PathProves(h: Hash, level: seq<Bytes>, i: nat)
    requires i < |level|
    ensures Process(h, level[i], Path(h, level, i)) == Root(h, level)
    decreases |level|
  {
    if |level| > 1 {
      var up := Next(h, level);
      Parent(h, level, i, i / 2);
      PathProves(h, up, i / 2);
      PathStep(h, level, i);
      if Sibling(i) < |level| { ProcessFirst(h, level[i], level[Sibling(i)], Path(h, up, i / 2)); }
    }
  }

  /** An inner node verifies too, with the rest of the path: a proof alone does not tell a leaf
      from an inner node, so soundness needs the leaf-typed hypothesis below. */
  lemma InnerNodeAlsoProves(h: Hash, level: seq<Bytes>, j: nat)
    requires |level| > 1 && j < |Next(h, level)|
    ensures Process(h, Next(h, level)[j], Path(h, Next(h, level), j)) == Root(h, level)
  {
    PathProves(h, Next(h, level), j);
  }

  // --------------------------------------------------------------- soundness

  function PairAt(level: seq<Bytes>, i: nat): Bytes
    requires 2 * i + 1 < |level|
  {
    Preimage(level[2 * i], level[2 * i + 1])
  }

  /** Everything the tree feeds to the hash. */
  ghost function TreeInputs(h: Hash, level: seq<Bytes>): set<Bytes>
    decreases |level|
  {
    if |level| <= 1 then {}
    else (set i | 0 <= i < |level| / 2 :: PairAt(level, i)) + TreeInputs(h, Next(h, level))
  }

  /** Everything checking a proof feeds to the hash. */
  ghost function ProofInputs(h: Hash, x: Bytes, proof: seq<Bytes>): set<Bytes> {
    if proof == [] then {}
    else
      var init := proof[..|proof| - 1];
      ProofInputs(h, x, init) + {Preimage(Process(h, x, init), proof[|proof| - 1])}
  }

  ghost predicate CollisionFree(h: Hash, inputs: set<Bytes>) {
    forall a, b :: a in inputs && b in inputs && h(a) == h(b) ==> a == b
  }

  /** A 32-byte value that is no inner node: leaves are hashes of JSON texts. */
  ghost predicate LeafTyped(h: Hash, x: Bytes, inputs: set<Bytes>) {
    |x| == 32 && forall a :: a in inputs ==> h(a) != x
  }

  ghost predicate Digests(level: seq<Bytes>) {
    forall i :: 0 <= i < |level| ==> |level[i]| == 32
  }

  /** Two 32-byte nodes and any pair with one 32-byte member: equal preimages mean the same two
      nodes, in one order or the other. */
  lemma PreimageParts(a: Bytes, b: Bytes, x: Bytes, y: Bytes)
    requires |a| == |b| == |x| == 32 && Preimage(a, b) == Preimage(x, y)
    ensures (a == x && b == y) || (a == y && b == x)
  {
    var p, q := Preimage(a, b), Preimage(x, y);
    assert |p| == 64 && |q| == 32 + |y|;
    assert p[..32] == (if BytesBefore(b, a) then b else a) && p[32..] == (if BytesBefore(b, a) then a else b);
    assert q[..32] == (if BytesBefore(y, x) then y else x) && q[32..] == (if BytesBefore(y, x) then x else y);
  }

  lemma {:induction false} ProofInputsPrefix(h: Hash, x: Bytes, p: seq<Bytes>, k: nat)
    requires k <= |p|
    ensures ProofInputs(h, x, p[..k]) <= ProofInputs(h, x, p)
    decreases |p|
  {
    if k < |p| {
      ProofInputsPrefix(h, x, p[..|p| - 1], k);
      assert p[..|p| - 1][..k] == p[..k];
    } else {
      assert p[..k] == p;
    }
  }

  lemma ProcessLast(h: Hash, x: Bytes, p: seq<Bytes>, k: nat)
    requires 0 < k <= |p|
    ensures Process(h, x, p[..k]) == h(Preimage(Process(h, x, p[..k - 1]), p[k - 1]))
    ensures Preimage(Process(h, x, p[..k - 1]), p[k - 1]) in ProofInputs(h, x, p)
    ensures |x| == 32 ==> |Process(h, x, p[..k - 1])| == 32
  {
    assert p[..k][..k - 1] == p[..k - 1];
    ProofInputsPrefix(h, x, p, k);
  }

  /** The proof's value after k steps is node i of this level, and its remaining steps are that
      node's path. */
  ghost predicate OnPath(h: Hash, level: seq<Bytes>, x: Bytes, p: seq<Bytes>, k: nat, i: nat) {
    k <= |p| && i < |level| && level[i] == Process(h, x, p[..k]) && p[k..] == Path(h, level, i)
  }

  /** The value that a pair of nodes hashes to was computed from one of them and the other. */
  lemma ProofOpensPair(h: Hash, l: Bytes, r: Bytes, x: Bytes, p: seq<Bytes>, inputs: set<Bytes>, k: nat)
    requires |l| == |r| == |x| == 32 && 0 < k <= |p|
    requires Preimage(l, r) in inputs && ProofInputs(h, x, p) <= inputs && CollisionFree(h, inputs)
    requires Process(h, x, p[..k]) == h(Preimage(l, r))
    ensures (Process(h, x, p[..k - 1]) == l && p[k - 1] == r) || (Process(h, x, p[..k - 1]) == r && p[k - 1] == l)
  {
    ProcessLast(h, x, p, k);
    PreimageParts(l, r, Process(h, x, p[..k - 1]), p[k - 1]);
  }

  lemma ChildPath(h: Hash, level: seq<Bytes>, c: nat, i: nat, s: Bytes)
    requires 2 * i + 1 < |level| && ((c == 2 * i && level[2 * i + 1] == s) || (c == 2 * i + 1 && level[2 * i] == s))
    ensures i < |Next(h, level)| && Path(h, level, c) == [s] + Path(h, Next(h, level), i)
  {
    Parent(h, level, c, i);
    PathStep(h, level, c);
  }

  /** One step down from a paired node: the proof's previous value is one child, its sibling the
      other. */
  lemma StepBelowPair(h: Hash, level: seq<Bytes>, x: Bytes, p: seq<Bytes>, inputs: set<Bytes>, k: nat, i: nat)
    returns (i': nat)
    requires Digests(level) && 2 * i + 1 < |level| && |x| == 32 && k > 0
    requires Preimage(level[2 * i], level[2 * i + 1]) in inputs && ProofInputs(h, x, p) <= inputs
      && CollisionFree(h, inputs)
    requires OnPath(h, Next(h, level), x, p, k, i)
    ensures OnPath(h, level, x, p, k - 1, i')
  {
    NextAt(h, level, i);
    ProofOpensPair(h, level[2 * i], level[2 * i + 1], x, p, inputs, k);
    assert p[k - 1..] == [p[k - 1]] + p[k..];
    i' := if p[k - 1] == level[2 * i + 1] && Process(h, x, p[..k - 1]) == level[2 * i] then 2 * i else 2 * i + 1;
    ChildPath(h, level, i', i, p[k - 1]);
  }

  lemma StepBelowPromoted(h: Hash, level: seq<Bytes>, x: Bytes, p: seq<Bytes>, k: nat, i: nat)
    requires |level| > 1 && 2 * i + 1 == |level| && OnPath(h, Next(h, level), x, p, k, i)
    ensures OnPath(h, level, x, p, k, 2 * i)
  {
    Parent(h, level, 2 * i, i);
    PathStep(h, level, 2 * i);
  }

  lemma NextDigests(h: Hash, level: seq<Bytes>)
    requires Digests(level)
    ensures Digests(Next(h, level))
  {
    forall j | 0 <= j < |Next(h, level)| ensures |Next(h, level)[j]| == 32 { NextAt(h, level, j); }
  }

  lemma PairHashed(h: Hash, level: seq<Bytes>, i: nat)
    requires 2 * i + 1 < |level|
    ensures PairAt(level, i) in TreeInputs(h, level)
  {
    assert i < |level| / 2;
  }

  /** One step down from any node. */
  lemma StepBelow(h: Hash, level: seq<Bytes>, x: Bytes, p: seq<Bytes>, inputs: set<Bytes>, k: nat, i: nat)
    returns (k': nat, i': nat)
    requires Digests(level) && |level| > 1 && |x| == 32 && k > 0
    requires TreeInputs(h, level) <= inputs && ProofInputs(h, x, p) <= inputs && CollisionFree(h, inputs)
    requires OnPath(h, Next(h, level), x, p, k, i)
    ensures OnPath(h, level, x, p, k', i')
  {
    if 2 * i + 1 == |level| {
      StepBelowPromoted(h, level, x, p, k, i);
      k', i' := k, 2 * i;
    } else {
      PairHashed(h, level, i);
      i' := StepBelowPair(h, level, x, p, inputs, k, i);
      k' := k - 1;
    }
  }

  /** x is node i of this level and p its path. */
  ghost predicate NodeAt(h: Hash, level: seq<Bytes>, x: Bytes, p: seq<Bytes>, i: nat) {
    i < |level| && level[i] == x && p == Path(h, level, i)
  }

  /** x is a node of this level or of one above it, and p that node's path. */
  ghost predicate NodeOf(h: Hash, level: seq<Bytes>, x: Bytes, p: seq<Bytes>)
    decreases |level|
  {
    (exists i :: NodeAt(h, level, x, p, i)) || (|level| > 1 && NodeOf(h, Next(h, level), x, p))
  }

  lemma ReachedNode(h: Hash, level: seq<Bytes>, x: Bytes, p: seq<Bytes>, i: nat)
    requires OnPath(h, level, x, p, 0, i)
    ensures NodeOf(h, level, x, p)
  {
    assert p[..0] == [] && p[0..] == p;
    assert NodeAt(h, level, x, p, i);
  }

  /** A proof that reaches the root is the path of a node of this level or above, or it passes
      through this level on the way. */
  lemma {:induction false} ProofFollowsPath(h: Hash, level: seq<Bytes>, x: Bytes, p: seq<Bytes>, inputs: set<Bytes>)
    returns (k: nat, i: nat)
    requires level != [] && Digests(level) && |x| == 32
    requires TreeInputs(h, level) <= inputs && ProofInputs(h, x, p) <= inputs && CollisionFree(h, inputs)
    requires Process(h, x, p) == Root(h, level)
    ensures NodeOf(h, level, x, p) || (k > 0 && OnPath(h, level, x, p, k, i))
    decreases |level|
  {
    if |level| == 1 {
      k, i := |p|, 0;
      assert p[..k] == p;
      if k == 0 { ReachedNode(h, level, x, p, i); }
    } else {
      NextDigests(h, level);
      k, i := ProofFollowsPath(h, Next(h, level), x, p, inputs);
      if !NodeOf(h, Next(h, level), x, p) {
        k, i := StepBelow(h, level, x, p, inputs, k, i);
        if k == 0 { ReachedNode(h, level, x, p, i); }
      }
    }
  }

  /** Every node proves with its own path. */
  lemma {:induction false} NodeProves(h: Hash, level: seq<Bytes>, x: Bytes, p: seq<Bytes>)
    requires level != [] && NodeOf(h, level, x, p)
    ensures Process(h, x, p) == Root(h, level)
    decreases |level|
  {
    if i: nat :| NodeAt(h, level, x, p, i) {
      PathProves(h, level, i);
    } else {
      NodeProves(h, Next(h, level), x, p);
    }
  }

  lemma PassesNoLeaf(h: Hash, leaves: seq<Bytes>, x: Bytes, p: seq<Bytes>, inputs: set<Bytes>, k: nat, i: nat)
    requires k > 0 && OnPath(h, leaves, x, p, k, i) && ProofInputs(h, x, p) <= inputs
    ensures !LeafTyped(h, leaves[i], inputs)
  {
    ProcessLast(h, x, p, k);
  }

  /** A 32-byte value computes the root with exactly the paths of its occurrences among all nodes
      of the tree, leaves and inner nodes alike. */
  lemma NodesExactly(h: Hash, leaves: seq<Bytes>, x: Bytes, p: seq<Bytes>, inputs: set<Bytes>)
    requires leaves != [] && TreeInputs(h, leaves) <= inputs && ProofInputs(h, x, p) <= inputs
    requires CollisionFree(h, inputs) && |x| == 32
    requires forall i :: 0 <= i < |leaves| ==> LeafTyped(h, leaves[i], inputs)
    ensures Process(h, x, p) == Root(h, leaves) <==> NodeOf(h, leaves, x, p)
  {
    if Process(h, x, p) == Root(h, leaves) {
      var k, i := ProofFollowsPath(h, leaves, x, p, inputs);
      if !NodeOf(h, leaves, x, p) { PassesNoLeaf(h, leaves, x, p, inputs, k, i); }
    }
    if NodeOf(h, leaves, x, p) { NodeProves(h, leaves, x, p); }
  }

  lemma PairIsUntyped(h: Hash, level: seq<Bytes>, x: Bytes, inputs: set<Bytes>, i: nat)
    requires 2 * i + 1 < |level| && TreeInputs(h, level) <= inputs && LeafTyped(h, x, inputs)
    ensures HashPair(h, level[2 * i], level[2 * i + 1]) != x
  {
    PairHashed(h, level, i);
    assert PairAt(level, i) in inputs;
  }

  lemma PromotedNode(h: Hash, level: seq<Bytes>, x: Bytes, p: seq<Bytes>, i: nat)
    requires |level| > 1 && 2 * i + 1 == |level| && NodeAt(h, Next(h, level), x, p, i)
    ensures NodeAt(h, level, x, p, 2 * i)
  {
    Parent(h, level, 2 * i, i);
    PathStep(h, level, 2 * i);
  }

  lemma TypedNodeBelow(h: Hash, level: seq<Bytes>, x: Bytes, p: seq<Bytes>, inputs: set<Bytes>, i: nat)
    requires |level| > 1 && TreeInputs(h, level) <= inputs && LeafTyped(h, x, inputs)
    requires NodeAt(h, Next(h, level), x, p, i)
    ensures NodeAt(h, level, x, p, 2 * i)
  {
    NextAt(h, level, i);
    if 2 * i + 1 < |level| { PairIsUntyped(h, level, x, inputs, i); }
    PromotedNode(h, level, x, p, i);
  }

  /** A leaf-typed node is a leaf. */
  lemma {:induction false} TypedNodeIsLeaf(h: Hash, level: seq<Bytes>, x: Bytes, p: seq<Bytes>, inputs: set<Bytes>)
    returns (i: nat)
    requires TreeInputs(h, level) <= inputs && LeafTyped(h, x, inputs) && NodeOf(h, level, x, p)
    ensures NodeAt(h, level, x, p, i)
    decreases |level|
  {
    if |level| > 1 && NodeOf(h, Next(h, level), x, p) {
      var j := TypedNodeIsLeaf(h, Next(h, level), x, p, inputs);
      TypedNodeBelow(h, level, x, p, inputs, j);
      i := 2 * j;
    } else {
      i :| NodeAt(h, level, x, p, i);
    }
  }

  /** A leaf-typed value is proved against the root exactly by the sibling paths of its
      occurrences among the leaves. */
  lemma ProofSound(h: Hash, leaves: seq<Bytes>, x: Bytes, p: seq<Bytes>, inputs: set<Bytes>)
    requires leaves != [] && TreeInputs(h, leaves) <= inputs && ProofInputs(h, x, p) <= inputs
    requires CollisionFree(h, inputs) && LeafTyped(h, x, inputs)
    requires forall i :: 0 <= i < |leaves| ==> LeafTyped(h, leaves[i], inputs)
    ensures Process(h, x, p) == Root(h, leaves)
       <==> exists i :: 0 <= i < |leaves| && leaves[i] == x && p == Path(h, leaves, i)
  {
    NodesExactly(h, leaves, x, p, inputs);
    if NodeOf(h, leaves, x, p) {
      var i := TypedNodeIsLeaf(h, leaves, x, p, inputs);
      assert leaves[i] == x && p == Path(h, leaves, i);
    }
    if i :| 0 <= i < |leaves| && leaves[i] == x && p == Path(h, leaves, i) {
      assert NodeAt(h, leaves, x, p, i);
    }
  }

  // ----------------------------------------------------------------- binding

  /** The shape behind a node: which leaves it covers. */
  datatype Term = Leaf(value: Bytes) | Pair(left: Term, right: Term)

  ghost function Value(h: Hash, t: Term): Bytes {
    match t
    case Leaf(v) => v
    case Pair(l, r) => HashPair(h, Value(h, l), Value(h, r))
  }

  ghost function Covered(t: Term): multiset<Bytes> {
    match t
    case Leaf(v) => multiset{v}
    case Pair(l, r) => Covered(l) + Covered(r)
  }

  ghost function TermInputs(h: Hash, t: Term): set<Bytes> {
    match t
    case Leaf(_) => {}
    case Pair(l, r) => TermInputs(h, l) + TermInputs(h, r) + {Preimage(Value(h, l), Value(h, r))}
  }

  ghost function Values(h: Hash, ts: seq<Term>): (r: seq<Bytes>)
    ensures |r| == |ts| && forall i :: 0 <= i < |ts| ==> r[i] == Value(h, ts[i])
  {
    seq(|ts|, i requires 0 <= i < |ts| => Value(h, ts[i]))
  }

  ghost function AllCovered(ts: seq<Term>): multiset<Bytes> {
    if ts == [] then multiset{} else Covered(ts[0]) + AllCovered(ts[1..])
  }

  ghost function NextTerms(ts: seq<Term>): (r: seq<Term>)
    ensures |r| == (|ts| + 1) / 2
    ensures forall i :: 0 <= i < |r| ==> r[i] == if 2 * i + 1 < |ts| then Pair(ts[2 * i], ts[2 * i + 1]) else ts[2 * i]
  {
    if |ts| <= 1 then ts else [Pair(ts[0], ts[1])] + NextTerms(ts[2..])
  }

  ghost function RootTerm(ts: seq<Term>): Term
    requires ts != []
    decreases |ts|
  {
    if |ts| == 1 then ts[0] else RootTerm(NextTerms(ts))
  }

  /** No pass loses, repeats or invents a leaf. */
  lemma {:induction false} NextConservesLeaves(ts: seq<Term>)
    ensures AllCovered(NextTerms(ts)) == AllCovered(ts)
  {
    if |ts| > 1 {
      NextConservesLeaves(ts[2..]);
      var t := [Pair(ts[0], ts[1])] + NextTerms(ts[2..]);
      assert t[1..] == NextTerms(ts[2..]);
      assert ts[1..][1..] == ts[2..];
      assert AllCovered(ts) == Covered(ts[0]) + (Covered(ts[1]) + AllCovered(ts[2..]));
    }
  }

  lemma {:induction false} RootTermMeans(h: Hash, ts: seq<Term>, inputs: set<Bytes>)
    requires ts != [] && TreeInputs(h, Values(h, ts)) <= inputs
    requires forall i :: 0 <= i < |ts| ==> TermInputs(h, ts[i]) <= inputs
    ensures Value(h, RootTerm(ts)) == Root(h, Values(h, ts))
    ensures Covered(RootTerm(ts)) == AllCovered(ts)
    ensures TermInputs(h, RootTerm(ts)) <= inputs
    decreases |ts|
  {
    if |ts| == 1 {
      assert ts[1..] == [];
    } else {
      var level, up := Values(h, ts), NextTerms(ts);
      forall j | 0 <= j < |up| ensures Value(h, up[j]) == Next(h, level)[j] { NextAt(h, level, j); }
      assert Values(h, up) == Next(h, level);
      NextConservesLeaves(ts);
      forall i | 0 <= i < |up| ensures TermInputs(h, up[i]) <= inputs {
        if 2 * i + 1 < |ts| {
          PairHashed(h, level, i);
        }
      }
      RootTermMeans(h, up, inputs);
    }
  }

  ghost predicate TypedTerm(h: Hash, t: Term, inputs: set<Bytes>) {
    forall v :: v in Covered(t) ==> LeafTyped(h, v, inputs)
  }

  lemma ValueLength(h: Hash, t: Term, inputs: set<Bytes>)
    requires TypedTerm(h, t, inputs)
    ensures |Value(h, t)| == 32
  {
    if t.Leaf? { assert t.value in Covered(t); }
  }

  lemma PairIsNoLeaf(h: Hash, v: Bytes, l: Term, r: Term, inputs: set<Bytes>)
    requires TypedTerm(h, Leaf(v), inputs) && TermInputs(h, Pair(l, r)) <= inputs
    ensures Value(h, Pair(l, r)) != Value(h, Leaf(v))
  {
    assert v in Covered(Leaf(v));
    assert Preimage(Value(h, l), Value(h, r)) in TermInputs(h, Pair(l, r));
  }

  lemma {:induction false} EqualValuesCoverEqually(h: Hash, t: Term, u: Term, inputs: set<Bytes>)
    requires TermInputs(h, t) <= inputs && TermInputs(h, u) <= inputs && CollisionFree(h, inputs)
    requires TypedTerm(h, t, inputs) && TypedTerm(h, u, inputs)
    requires Value(h, t) == Value(h, u)
    ensures Covered(t) == Covered(u)
  {
    match (t, u)
    case (Pair(a, b), Pair(c, d)) =>
      assert TypedTerm(h, a, inputs) && TypedTerm(h, b, inputs) && TypedTerm(h, c, inputs) && TypedTerm(h, d, inputs);
      ValueLength(h, a, inputs);
      ValueLength(h, b, inputs);
      ValueLength(h, c, inputs);
      PreimageParts(Value(h, a), Value(h, b), Value(h, c), Value(h, d));
      if Value(h, a) == Value(h, c) && Value(h, b) == Value(h, d) {
        EqualValuesCoverEqually(h, a, c, inputs);
        EqualValuesCoverEqually(h, b, d, inputs);
      } else {
        EqualValuesCoverEqually(h, a, d, inputs);
        EqualValuesCoverEqually(h, b, c, inputs);
      }
    case (Leaf(v), Leaf(w)) =>
    case (Leaf(v), Pair(c, d)) => PairIsNoLeaf(h, v, c, d, inputs);
    case (Pair(a, b), Leaf(w)) => PairIsNoLeaf(h, w, a, b, inputs);
  }

  ghost function LeafTerms(leaves: seq<Bytes>): (r: seq<Term>)
    ensures |r| == |leaves| && forall i :: 0 <= i < |r| ==> r[i] == Leaf(leaves[i])
  {
    seq(|leaves|, i requires 0 <= i < |leaves| => Leaf(leaves[i]))
  }

  lemma LeafTermsTail(leaves: seq<Bytes>)
    requires leaves != []
    ensures LeafTerms(leaves)[1..] == LeafTerms(leaves[1..]) && LeafTerms(leaves)[0] == Leaf(leaves[0])
  {
  }

  lemma {:induction false} LeafTermsCover(leaves: seq<Bytes>)
    ensures AllCovered(LeafTerms(leaves)) == multiset(leaves)
  {
    if leaves != [] {
      LeafTermsCover(leaves[1..]);
      LeafTermsTail(leaves);
      assert leaves == [leaves[0]] + leaves[1..];
      assert multiset(leaves) == multiset{leaves[0]} + multiset(leaves[1..]);
    }
  }

  lemma LeavesTerm(h: Hash, leaves: seq<Bytes>, inputs: set<Bytes>) returns (t: Term)
    requires leaves != [] && TreeInputs(h, leaves) <= inputs
    ensures Value(h, t) == Root(h, leaves) && Covered(t) == multiset(leaves) && TermInputs(h, t) <= inputs
  {
    var ts := LeafTerms(leaves);
    assert Values(h, ts) == leaves;
    RootTermMeans(h, ts, inputs);
    LeafTermsCover(leaves);
    t := RootTerm(ts);
  }

  /** Equal roots commit to equal multisets of leaves, even for trees of unequal size. */
  lemma RootsCommit(h: Hash, a: seq<Bytes>, b: seq<Bytes>, inputs: set<Bytes>)
    requires a != [] && b != [] && TreeInputs(h, a) <= inputs && TreeInputs(h, b) <= inputs
    requires CollisionFree(h, inputs)
    requires forall x :: x in a || x in b ==> LeafTyped(h, x, inputs)
    requires Root(h, a) == Root(h, b)
    ensures multiset(a) == multiset(b)
  {
    var t := LeavesTerm(h, a, inputs);
    var u := LeavesTerm(h, b, inputs);
    EqualValuesCoverEqually(h, t, u, inputs);
  }

  // ----------------------------------------------- the tree over hexadecimal text

  datatype Tree = Tree(root: Str, leaves: seq<Str>, levels: seq<seq<Bytes>>)

  /** The bytes of each text, if all of them can be read. */
  function ReadAll(texts: seq<Str>): (r: Option<seq<Bytes>>)
    ensures r.Some? <==> forall i :: 0 <= i < |texts| ==> FromHex(texts[i]).Some?
    ensures r.Some? ==> |r.value| == |texts| && forall i :: 0 <= i < |texts| ==> r.value[i] == FromHex(texts[i]).value
  {
    if texts == [] then Some([])
    else
      match (FromHex(texts[0]), ReadAll(texts[1..]))
      case (Some(b), Some(bs)) => Some([b] + bs)
      case _ => None
  }

  function WriteAll(nodes: seq<Bytes>): (r: seq<Str>)
    ensures |r| == |nodes| && forall i :: 0 <= i < |r| ==> r[i] == ToHex(nodes[i])
  {
    seq(|nodes|, i requires 0 <= i < |nodes| => ToHex(nodes[i]))
  }

  lemma ReadWriteAll(nodes: seq<Bytes>)
    ensures ReadAll(WriteAll(nodes)) == Some(nodes)
  {
    forall i | 0 <= i < |nodes| ensures FromHex(WriteAll(nodes)[i]) == Some(nodes[i]) { HexRoundTrip(nodes[i]); }
    assert ReadAll(WriteAll(nodes)).value == nodes;
  }

  lemma ReadAllIs(texts: seq<Str>, nodes: seq<Bytes>)
    requires |texts| == |nodes| && forall i :: 0 <= i < |texts| ==> FromHex(texts[i]) == Some(nodes[i])
    ensures ReadAll(texts) == Some(nodes)
  {
    assert ReadAll(texts).value == nodes;
  }

  /** A tree as buildTree returns it. */
  ghost predicate Built(h: Hash, tree: Tree) {
    && tree.levels != [] && tree.levels[0] != []
    && ReadAll(tree.leaves) == Some(tree.levels[0])
    && tree.levels == Levels(h, tree.levels[0])
    && tree.root == ToHex(Root(h, tree.levels[0]))
  }

  /** Levels from leaves to root, each the next of the one below. */
  ghost predicate Chain(h: Hash, levels: seq<seq<Bytes>>) {
    && levels != [] && |levels[|levels| - 1]| == 1
    && forall l :: 0 <= l < |levels| - 1 ==> |levels[l]| > 1 && levels[l + 1] == Next(h, levels[l])
  }

  lemma {:induction false} LevelsChain(h: Hash, base: seq<Bytes>)
    requires base != []
    ensures Chain(h, Levels(h, base))
    decreases |base|
  {
    if |base| > 1 {
      var up := Levels(h, Next(h, base));
      LevelsChain(h, Next(h, base));
      var all := [base] + up;
      forall l | 0 <= l < |all| - 1 ensures |all[l]| > 1 && all[l + 1] == Next(h, all[l]) {
        assert all[l + 1] == up[l];
        if l > 0 { assert all[l] == up[l - 1]; }
      }
    }
  }

  /** None stands for the errors buildTree throws: no leaves, or a leaf that is not readable. */
  method BuildTree(h: Hash, leaves: seq<Str>) returns (r: Option<Tree>)
    ensures r.None? <==> leaves == [] || ReadAll(leaves).None?
    ensures r.Some? ==> r.value.leaves == leaves && Built(h, r.value)
  {
    if leaves == [] || ReadAll(leaves).None? { return None; }
    var bytes := ReadAll(leaves).value;
    LevelsChain(h, bytes);
    RootOnTop(h, bytes);
    var levels := StackLevels(h, bytes, Levels(h, bytes));
    return Some(Tree(ToHex(levels[|levels| - 1][0]), leaves, levels));
  }

  /** The outer loop of buildTree. */
  method StackLevels(h: Hash, bytes: seq<Bytes>, ghost all: seq<seq<Bytes>>) returns (levels: seq<seq<Bytes>>)
    requires Chain(h, all) && all[0] == bytes
    ensures levels == all
  {
    levels := [bytes];
    while |levels[|levels| - 1]| > 1
      invariant 0 < |levels| <= |all| && levels == all[..|levels|]
      decreases |all| - |levels|
    {
      var current := levels[|levels| - 1];
      var next := BuildLevel(h, current);
      levels := levels + [next];
    }
  }

  lemma {:induction false} RootOnTop(h: Hash, base: seq<Bytes>)
    requires base != []
    ensures Levels(h, base)[Height(|base|)] == [Root(h, base)]
    decreases |base|
  {
    if |base| > 1 { RootOnTop(h, Next(h, base)); }
  }

  /** The inner loop of buildTree. */
  method BuildLevel(h: Hash, current: seq<Bytes>) returns (next: seq<Bytes>)
    ensures next == Next(h, current)
  {
    next := [];
    var i := 0;
    while i < |current|
      invariant i == 2 * |next| && 0 <= i <= |current| + 1
      invariant forall k :: 0 <= k < |next| ==> next[k] == Next(h, current)[k]
    {
      NextAt(h, current, |next|);
      next := next + [if i + 1 < |current| then HashPair(h, current[i], current[i + 1]) else current[i]];
      i := i + 2;
    }
  }

  lemma {:induction false} LevelsStep(h: Hash, base: seq<Bytes>, l: nat)
    requires base != [] && l < |Levels(h, base)|
    ensures Levels(h, base)[l] != []
    ensures l + 1 < |Levels(h, base)| ==>
      |Levels(h, base)[l]| > 1 && Levels(h, base)[l + 1] == Next(h, Levels(h, base)[l])
    ensures l + 1 == |Levels(h, base)| ==> |Levels(h, base)[l]| == 1
    decreases |base|
  {
    if |base| > 1 {
      var up := Next(h, base);
      if l > 0 { LevelsStep(h, up, l - 1); }
    }
  }

  lemma WriteFirst(s: Bytes, more: seq<Bytes>)
    ensures WriteAll([s] + more) == [ToHex(s)] + WriteAll(more)
  {
  }

  lemma WriteAppend(proof: seq<Str>, s: Bytes, more: seq<Bytes>)
    ensures proof + WriteAll([s] + more) == (proof + [ToHex(s)]) + WriteAll(more)
  {
    WriteFirst(s, more);
    Assoc(proof, [ToHex(s)], WriteAll(more));
  }

  /** None stands for the RangeError of an index outside the tree. */
  method GetProof(h: Hash, tree: Tree, index: int) returns (r: Option<seq<Str>>)
    requires Built(h, tree)
    ensures r.None? <==> !(0 <= index < |tree.leaves|)
    ensures r.Some? ==> r == Some(WriteAll(Path(h, tree.levels[0], index)))
  {
    if index < 0 || index >= |tree.leaves| { return None; }
    LevelsChain(h, tree.levels[0]);
    var proof := ClimbLevels(h, tree.levels, index);
    return Some(proof);
  }

  /** The loop of getProof. */
  method ClimbLevels(h: Hash, levels: seq<seq<Bytes>>, index: nat) returns (proof: seq<Str>)
    requires Chain(h, levels) && index < |levels[0]|
    ensures proof == WriteAll(Path(h, levels[0], index))
  {
    proof := [];
    var position: nat := index;
    Parts([], WriteAll(Path(h, levels[0], index)));
    for level := 0 to |levels| - 1
      invariant position < |levels[level]|
      invariant WriteAll(Path(h, levels[0], index)) == proof + WriteAll(Path(h, levels[level], position))
    {
      var nodes := levels[level];
      PathStep(h, nodes, position);
      var isRightChild := position % 2 == 1;
      var siblingIndex := if isRightChild then position - 1 else position + 1;
      if siblingIndex < |nodes| {
        WriteAppend(proof, nodes[siblingIndex], Path(h, levels[level + 1], position / 2));
        proof := proof + [ToHex(nodes[siblingIndex])];
      }
      position := position / 2;
    }
    Parts(proof, WriteAll([]));
  }

  /** What processProof returns; None stands for unreadable hexadecimal. */
  function ProcessHex(h: Hash, leaf: Str, proof: seq<Str>): Option<Str> {
    match (FromHex(leaf), ReadAll(proof))
    case (Some(x), Some(p)) => Some(ToHex(Process(h, x, p)))
    case _ => None
  }

  method ProcessProof(h: Hash, leaf: Str, proof: seq<Str>) returns (r: Option<Str>)
    ensures r == ProcessHex(h, leaf, proof)
  {
    match (FromHex(leaf), ReadAll(proof))
    case (Some(x), Some(steps)) =>
      var computed := FoldProof(h, x, steps);
      return Some(ToHex(computed));
    case _ => return None;
  }

  /** The loop of processProof. */
  method FoldProof(h: Hash, x: Bytes, steps: seq<Bytes>) returns (computed: Bytes)
    ensures computed == Process(h, x, steps)
  {
    computed := x;
    for i := 0 to |steps|
      invariant computed == Process(h, x, steps[..i])
    {
      assert steps[..i + 1][..i] == steps[..i];
      computed := HashPair(h, computed, steps[i]);
    }
    assert steps[..|steps|] == steps;
  }

  function VerifyProof(h: Hash, leaf: Str, proof: seq<Str>, root: Str): Option<bool> {
    match ProcessHex(h, leaf, proof)
    case None => None
    case Some(computed) => Some(Lower(computed) == Lower(root))
  }

  /** Every leaf of a built tree verifies with the proof getProof returns for it. */
  lemma BuiltProofsVerify(h: Hash, tree: Tree, i: nat)
    requires Built(h, tree) && i < |tree.leaves|
    ensures VerifyProof(h, tree.leaves[i], WriteAll(Path(h, tree.levels[0], i)), tree.root) == Some(true)
    ensures |Path(h, tree.levels[0], i)| <= Height(|tree.leaves|)
  {
    ReadWriteAll(Path(h, tree.levels[0], i));
    PathProves(h, tree.levels[0], i);
  }

  lemma SameDigestText(a: Digest, b: Digest)
    ensures Lower(ToHex(a)) == Lower(ToHex(b)) <==> a == b
  {
    ToHexIsDigest(a);
    ToHexIsDigest(b);
  }

  lemma VerifyIsProcess(h: Hash, x: Str, proof: seq<Str>, b: Digest, p: seq<Bytes>, root: Digest)
    requires FromHex(x) == Some(b) && ReadAll(proof) == Some(p)
    ensures VerifyProof(h, x, proof, ToHex(root)) == Some(Process(h, b, p) == root)
  {
    SameDigestText(Process(h, b, p), root);
    assert ProcessHex(h, x, proof) == Some(ToHex(Process(h, b, p)));
  }

  /** Of a tree over digests, a digest text and a readable proof verify exactly when the digest is
      one of the leaves, up to case, and the proof is the sibling path of that leaf. */
  lemma VerifiedMeansLeaf(h: Hash, tree: Tree, x: Str, proof: seq<Str>, inputs: set<Bytes>)
    requires Built(h, tree) && IsDigest(x) && forall i :: 0 <= i < |tree.leaves| ==> IsDigest(tree.leaves[i])
    requires ReadAll(proof).Some?
    requires TreeInputs(h, tree.levels[0]) <= inputs && ProofInputs(h, DigestOf(x), ReadAll(proof).value) <= inputs
    requires CollisionFree(h, inputs) && LeafTyped(h, DigestOf(x), inputs)
    requires forall i :: 0 <= i < |tree.leaves| ==> LeafTyped(h, tree.levels[0][i], inputs)
    ensures VerifyProof(h, x, proof, tree.root) == Some(true)
       <==> exists i :: 0 <= i < |tree.leaves| && Lower(tree.leaves[i]) == Lower(x)
                        && ReadAll(proof).value == Path(h, tree.levels[0], i)
  {
    var p, leaves := ReadAll(proof).value, tree.levels[0];
    RootIsDigest(h, leaves);
    DigestReads(x);
    VerifyIsProcess(h, x, proof, DigestOf(x), p, Root(h, leaves));
    ProofSound(h, leaves, DigestOf(x), p, inputs);
    if VerifyProof(h, x, proof, tree.root) == Some(true) {
      var i :| 0 <= i < |leaves| && leaves[i] == DigestOf(x) && p == Path(h, leaves, i);
      DigestsAgree(tree.leaves[i], x);
    }
    if i :| 0 <= i < |tree.leaves| && Lower(tree.leaves[i]) == Lower(x) && p == Path(h, leaves, i) {
      DigestsAgree(tree.leaves[i], x);
      assert leaves[i] == DigestOf(x);
    }
  }

  lemma {:induction false} RootIsDigest(h: Hash, level: seq<Bytes>)
    requires level != [] && Digests(level)
    ensures |Root(h, level)| == 32
    decreases |level|
  {
    if |level| > 1 {
      NextDigests(h, level);
      RootIsDigest(h, Next(h, level));
    }
  }
}
