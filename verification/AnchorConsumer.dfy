/** The anchoring consumer: decision digests gather in an open batch, which is sealed under a Merkle
    root when it is full or old and then published. */
module AnchorConsumer {
  import opened Text
  import opened Json
  import opened Hex
  import opened Merkle
  import opened Events

  // -------------------------------------------------------------- the batch

  datatype Config = Config(batchSize: int, maxAgeMs: int)

  datatype Batch = Batch(leaves: seq<Str>, openedAt: int)

  function Added(b: Batch, digest: Str, now: int): Batch {
    Batch(b.leaves + [digest], if b.leaves == [] then now else b.openedAt)
  }

  predicate Due(c: Config, b: Batch, now: int) {
    b.leaves != [] && (|b.leaves| >= c.batchSize || now - b.openedAt >= c.maxAgeMs)
  }

  /** `Unreadable` is an exception from buildTree; the leaves are gone by then. */
  datatype Sealing = Empty | Unreadable | Sealed(root: Str, leaves: seq<Str>)

  function SealingOf(h: Hash, leaves: seq<Str>): Sealing {
    if leaves == [] then Empty
    else match ReadAll(leaves)
      case None => Unreadable
      case Some(nodes) => Sealed(ToHex(Root(h, nodes)), leaves)
  }

  class ReceiptBatch {
    const config: Config
    var leaves: seq<Str>
    var openedAt: int

    ghost function Value(): Batch
      reads this
    {
      Batch(leaves, openedAt)
    }

    constructor (config: Config, now: int)
      ensures this.config == config && Value() == Batch([], now)
    {
      this.config := config;
      leaves, openedAt := [], now;
    }

    method Add(digest: Str, now: int)
      modifies this
      ensures Value() == Added(old(Value()), digest, now)
    {
      if leaves == [] { openedAt := now; }
      leaves := leaves + [digest];
    }

    method ShouldFlush(now: int) returns (due: bool)
      ensures due <==> Due(config, Value(), now)
    {
      if leaves == [] { return false; }
      due := |leaves| >= config.batchSize || now - openedAt >= config.maxAgeMs;
    }

    method Seal(h: Hash, now: int) returns (r: Sealing)
      modifies this
      ensures r == SealingOf(h, old(leaves))
      ensures Value() == if old(leaves) == [] then old(Value()) else Batch([], now)
    {
      if leaves == [] { return Empty; }
      var taken := leaves;
      leaves := [];
      openedAt := now;
      var tree := BuildTree(h, taken);
      return if tree.None? then Unreadable else Sealed(tree.value.root, taken);
    }
  }

  // ------------------------------------------------------------- the service

  /** A sealed batch and whether its event reached the log. */
  datatype Anchor = Anchor(root: Str, leaves: seq<Str>, published: bool)

  /** `accepted` is the history of digests added, one entry per handler call. */
  datatype State = State(batch: Batch, anchors: seq<Anchor>, accepted: seq<Str>)

  /** Seal what is open and emit it. False is an exception. */
  function Flushed(h: Hash, s: State, now: int, emitted: bool): (State, bool) {
    var rest := s.(batch := Batch([], now));
    match SealingOf(h, s.batch.leaves)
    case Empty => (s, true)
    case Unreadable => (rest, false)
    case Sealed(root, leaves) => (rest.(anchors := s.anchors + [Anchor(root, leaves, emitted)]), emitted)
  }

  datatype Tick = Tick(checkedAt: int, sealedAt: int, emitted: bool)

  function Ticked(h: Hash, c: Config, s: State, t: Tick): State {
    if Due(c, s.batch, t.checkedAt) then Flushed(h, s, t.sealedAt, t.emitted).0 else s
  }

  function TickedAll(h: Hash, c: Config, s: State, ts: seq<Tick>): State {
    if ts == [] then s else Ticked(h, c, TickedAll(h, c, s, ts[..|ts| - 1]), ts[|ts| - 1])
  }

  function Took(s: State, digest: Str, now: int): State {
    s.(batch := Added(s.batch, digest, now), accepted := s.accepted + [digest])
  }

  /** What surrounds one handler call: timer ticks before it, its clock readings, and whether an
      emit succeeds. */
  datatype Call = Call(ticks: seq<Tick>, addedAt: int, checkedAt: int, sealedAt: int, emitted: bool)

  /** The message handler. */
  function Handle(h: Hash, c: Config, s: State, event: Event, call: Call): (State, bool) {
    match event
    case OtherEvent => (s, true)
    case DecisionEvent(_, _, digest) =>
      var t := Took(s, digest, call.addedAt);
      if Due(c, t.batch, call.checkedAt) then Flushed(h, t, call.sealedAt, call.emitted) else (t, true)
  }

  class Service {
    const config: Config
    const batch: ReceiptBatch
    var anchors: seq<Anchor>
    ghost var accepted: seq<Str>

    ghost predicate Valid()
      reads this
    {
      batch.config == config
    }

    ghost function Value(): State
      reads this, batch
    {
      State(batch.Value(), anchors, accepted)
    }

    constructor (config: Config, now: int)
      ensures Valid() && this.config == config && fresh(batch) && Value() == State(Batch([], now), [], [])
    {
      this.config := config;
      batch := new ReceiptBatch(config, now);
      anchors, accepted := [], [];
    }

    method Flush(h: Hash, now: int, emitted: bool) returns (ok: bool)
      requires Valid()
      modifies this, batch
      ensures Valid() && (Value(), ok) == Flushed(h, old(Value()), now, emitted)
    {
      var sealing := batch.Seal(h, now);
      match sealing
      case Empty => return true;
      case Unreadable => return false;
      case Sealed(root, leaves) =>
        anchors := anchors + [Anchor(root, leaves, emitted)];
        return emitted;
    }

    method OnTick(h: Hash, t: Tick)
      requires Valid()
      modifies this, batch
      ensures Valid() && Value() == Ticked(h, config, old(Value()), t)
    {
      var due := batch.ShouldFlush(t.checkedAt);
      if due { var _ := Flush(h, t.sealedAt, t.emitted); }
    }

    method OnMessage(h: Hash, event: Event, call: Call) returns (ok: bool)
      requires Valid()
      modifies this, batch
      ensures Valid() && (Value(), ok) == Handle(h, config, old(Value()), event, call)
    {
      if event.OtherEvent? { return true; }
      batch.Add(event.digest, call.addedAt);
      accepted := accepted + [event.digest];
      var due := batch.ShouldFlush(call.checkedAt);
      if !due { return true; }
      ok := Flush(h, call.sealedAt, call.emitted);
    }
  }

  // -------------------------------------------------------- what steps keep

  function Leaves(anchors: seq<Anchor>): seq<Str> {
    if anchors == [] then [] else Leaves(anchors[..|anchors| - 1]) + anchors[|anchors| - 1].leaves
  }

  ghost predicate Digests(ds: seq<Str>) { forall i :: 0 <= i < |ds| ==> IsDigest(ds[i]) }

  /** Every sealed batch is non-empty and its root is that of the tree over its leaves. */
  ghost predicate Rooted(h: Hash, a: Anchor) {
    a.leaves != [] && ReadAll(a.leaves).Some? && a.root == ToHex(Root(h, ReadAll(a.leaves).value))
  }

  /** Nothing accepted is missing, doubled or out of order, and every seal can be verified. */
  ghost predicate Conserved(h: Hash, s: State) {
    && Digests(s.accepted)
    && Leaves(s.anchors) + s.batch.leaves == s.accepted
    && (forall k :: 0 <= k < |s.anchors| ==> Rooted(h, s.anchors[k]))
  }

  lemma LeavesSnoc(anchors: seq<Anchor>, a: Anchor)
    ensures Leaves(anchors + [a]) == Leaves(anchors) + a.leaves
  {
    assert (anchors + [a])[..|anchors|] == anchors;
  }

  lemma OpenReadable(s: State)
    requires Digests(s.accepted) && Leaves(s.anchors) + s.batch.leaves == s.accepted
    ensures ReadAll(s.batch.leaves).Some?
  {
    forall i | 0 <= i < |s.batch.leaves| ensures FromHex(s.batch.leaves[i]).Some? {
      assert s.batch.leaves[i] == s.accepted[|Leaves(s.anchors)| + i];
      DigestReads(s.batch.leaves[i]);
    }
  }

  lemma SealKeeps(h: Hash, s: State, now: int, emitted: bool)
    requires Conserved(h, s) && s.batch.leaves != [] && ReadAll(s.batch.leaves).Some?
    ensures var a := Anchor(ToHex(Root(h, ReadAll(s.batch.leaves).value)), s.batch.leaves, emitted);
      Conserved(h, State(Batch([], now), s.anchors + [a], s.accepted))
  {
    var a := Anchor(ToHex(Root(h, ReadAll(s.batch.leaves).value)), s.batch.leaves, emitted);
    LeavesSnoc(s.anchors, a);
    var after := s.anchors + [a];
    assert Leaves(after) + [] == Leaves(after);
    forall k | 0 <= k < |after| ensures Rooted(h, after[k]) {
      if k < |s.anchors| { assert after[k] == s.anchors[k]; }
    }
  }

  /** Sealing never throws, and moves the open leaves into a new anchor. */
  lemma FlushKeeps(h: Hash, s: State, now: int, emitted: bool)
    requires Conserved(h, s)
    ensures var (t, ok) := Flushed(h, s, now, emitted);
      && Conserved(h, t) && t.accepted == s.accepted && t.batch.leaves == []
      && (ok <==> s.batch.leaves == [] || emitted)
  {
    OpenReadable(s);
    if s.batch.leaves != [] { SealKeeps(h, s, now, emitted); }
  }

  lemma TookKeeps(h: Hash, s: State, digest: Str, now: int)
    requires Conserved(h, s) && IsDigest(digest)
    ensures Conserved(h, Took(s, digest, now))
  {
    Assoc(Leaves(s.anchors), s.batch.leaves, [digest]);
  }

  /** The open batch is below the size limit, or empty if the limit is no limit at all. */
  predicate Small(c: Config, s: State) { |s.batch.leaves| < c.batchSize || s.batch.leaves == [] }

  ghost predicate Good(h: Hash, c: Config, s: State) { Conserved(h, s) && Small(c, s) }

  lemma HandleKeeps(h: Hash, c: Config, s: State, event: Event, call: Call)
    requires Good(h, c, s) && (event.DecisionEvent? ==> IsDigest(event.digest))
    ensures var (t, ok) := Handle(h, c, s, event, call);
      && Good(h, c, t)
      && t.accepted == s.accepted + (if event.DecisionEvent? then [event.digest] else [])
      && (call.emitted ==> ok)
  {
    if event.DecisionEvent? {
      TookKeeps(h, s, event.digest, call.addedAt);
      FlushKeeps(h, Took(s, event.digest, call.addedAt), call.sealedAt, call.emitted);
    } else {
      assert s.accepted + [] == s.accepted;
    }
  }

  lemma {:induction false} TicksKeep(h: Hash, c: Config, s: State, ts: seq<Tick>)
    requires Good(h, c, s)
    ensures var t := TickedAll(h, c, s, ts); Good(h, c, t) && t.accepted == s.accepted
  {
    if ts != [] {
      TicksKeep(h, c, s, ts[..|ts| - 1]);
      var t := TickedAll(h, c, s, ts[..|ts| - 1]);
      FlushKeeps(h, t, ts[|ts| - 1].sealedAt, ts[|ts| - 1].emitted);
    }
  }

  // ------------------------------------------------------------------ records

  /** A record as it was decoded, what surrounds each attempt, and whether a dead letter could be
      written. */
  datatype Record = Record(decoded: Decoded, calls: nat -> Call, letterWritten: bool)

  /** Attempt n at a record, after the timer ticks that come before it. */
  function Attempt(h: Hash, c: Config, event: Event, calls: nat -> Call): (State, nat) -> (State, bool) {
    (s: State, n: nat) => Handle(h, c, TickedAll(h, c, s, calls(n).ticks), event, calls(n))
  }

  /** What decoding guarantees of a decision. */
  ghost predicate Genuine(d: Decoded) { d.Ok? && d.event.DecisionEvent? ==> IsDigest(d.event.digest) }

  /** A record ends once: handled within the allowed attempts, or dead-lettered. */
  ghost predicate Settled(r: Record, maxAttempts: int, f: Fate) {
    match f
    case Handled(n) => r.decoded.Ok? && 1 <= n <= maxAttempts
    case DeadLettered(n, written) => written == r.letterWritten && n == if r.decoded.Ok? then maxAttempts else 1
  }

  /** Handled at the first attempt, unless it could not be decoded. */
  ghost predicate AtOnce(r: Record, f: Fate) {
    f == if r.decoded.Ok? then Handled(1) else DeadLettered(1, r.letterWritten)
  }

  /** The emit of the first attempt, if it makes one, succeeds. */
  predicate Emits(r: Record) { r.calls(1).emitted }

  predicate AllEmits(log: seq<Record>) { forall k :: 0 <= k < |log| ==> Emits(log[k]) }

  function DigestsOf(r: Record): seq<Str> {
    if r.decoded.Ok? && r.decoded.event.DecisionEvent? then [r.decoded.event.digest] else []
  }

  /** The digests of the decisions in a log, in order. */
  function DecisionDigests(log: seq<Record>): seq<Str> {
    if log == [] then [] else DecisionDigests(log[..|log| - 1]) + DigestsOf(log[|log| - 1])
  }

  /** One record: what was accepted stays, and if emits succeed it is accepted exactly once. */
  ghost predicate TookOne(maxAttempts: int, before: seq<Str>, r: Record, after: seq<Str>, fate: Fate) {
    && before <= after && Settled(r, maxAttempts, fate)
    && (maxAttempts >= 1 && Emits(r) ==> after == before + DigestsOf(r) && AtOnce(r, fate))
  }

  /** What becomes of one record, and of a log. */
  function Processed(h: Hash, c: Config, maxAttempts: int, s: State, r: Record): Delivery<State> {
    match r.decoded
    case Rejected(_) => Delivery(s, DeadLettered(1, r.letterWritten), 0)
    case Ok(event) => DeliverFrom(s, 0, maxAttempts, Attempt(h, c, event, r.calls), r.letterWritten)
  }

  function AfterLog(h: Hash, c: Config, maxAttempts: int, start: State, log: seq<Record>): State {
    if log == [] then start
    else Processed(h, c, maxAttempts, AfterLog(h, c, maxAttempts, start, log[..|log| - 1]), log[|log| - 1]).state
  }

  method ConsumeOne(h: Hash, c: Config, maxAttempts: int, s: State, r: Record) returns (t: State, fate: Fate)
    requires Good(h, c, s) && Genuine(r.decoded)
    ensures Good(h, c, t) && TookOne(maxAttempts, s.accepted, r, t.accepted, fate)
    ensures t == Processed(h, c, maxAttempts, s, r).state && fate == Processed(h, c, maxAttempts, s, r).fate
  {
    if r.decoded.Rejected? {
      var d := EachMessage(s, r.decoded, maxAttempts, (u: State, n: nat) => (u, true), r.letterWritten);
      return d.state, d.fate;
    }
    var attempt := Attempt(h, c, r.decoded.event, r.calls);
    var d := EachMessage(s, r.decoded, maxAttempts, attempt, r.letterWritten);
    AttemptsKeep(h, c, s, r.decoded.event, r.calls, d.calls);
    if maxAttempts >= 1 && Emits(r) {
      FirstAttemptSucceeds(h, c, s, r.decoded.event, r.calls);
      assert AfterAttempts(s, 1, attempt).accepted == s.accepted + DigestsOf(r);
      assert Succeeds(s, 1, attempt);
    }
    return d.state, d.fate;
  }

  lemma AttemptKeeps(h: Hash, c: Config, s: State, event: Event, calls: nat -> Call, n: nat)
    requires Good(h, c, s) && (event.DecisionEvent? ==> IsDigest(event.digest))
    ensures var (t, ok) := Attempt(h, c, event, calls)(s, n);
      && Good(h, c, t)
      && t.accepted == s.accepted + (if event.DecisionEvent? then [event.digest] else [])
      && (calls(n).emitted ==> ok)
  {
    TicksKeep(h, c, s, calls(n).ticks);
    HandleKeeps(h, c, TickedAll(h, c, s, calls(n).ticks), event, calls(n));
  }

  lemma {:induction false} AttemptsGood(h: Hash, c: Config, s: State, f: (State, nat) -> (State, bool), n: nat)
    requires Good(h, c, s)
    requires forall u, k: nat :: Good(h, c, u) ==> Good(h, c, f(u, k).0) && u.accepted <= f(u, k).0.accepted
    ensures Good(h, c, AfterAttempts(s, n, f)) && s.accepted <= AfterAttempts(s, n, f).accepted
  {
    if n > 0 { AttemptsGood(h, c, s, f, n - 1); }
  }

  lemma AttemptsKeep(h: Hash, c: Config, s: State, event: Event, calls: nat -> Call, n: nat)
    requires Good(h, c, s) && (event.DecisionEvent? ==> IsDigest(event.digest))
    ensures var t := AfterAttempts(s, n, Attempt(h, c, event, calls)); Good(h, c, t) && s.accepted <= t.accepted
  {
    var f := Attempt(h, c, event, calls);
    forall u, k: nat | Good(h, c, u) ensures Good(h, c, f(u, k).0) && u.accepted <= f(u, k).0.accepted {
      AttemptKeeps(h, c, u, event, calls, k);
    }
    AttemptsGood(h, c, s, f, n);
  }

  lemma FirstAttemptSucceeds(h: Hash, c: Config, s: State, event: Event, calls: nat -> Call)
    requires Good(h, c, s) && (event.DecisionEvent? ==> IsDigest(event.digest))
    requires calls(1).emitted
    ensures Succeeds(s, 1, Attempt(h, c, event, calls))
    ensures AfterAttempts(s, 1, Attempt(h, c, event, calls)).accepted
         == s.accepted + (if event.DecisionEvent? then [event.digest] else [])
  {
    AttemptKeeps(h, c, s, event, calls, 1);
    assert AfterAttempts(s, 0, Attempt(h, c, event, calls)) == s;
  }

  /** The same of the records of a log so far. */
  ghost predicate TookAll(maxAttempts: int, before: seq<Str>, log: seq<Record>, after: seq<Str>, fates: seq<Fate>) {
    && |fates| == |log|
    && (forall j :: 0 <= j < |log| ==> Settled(log[j], maxAttempts, fates[j]))
    && (maxAttempts >= 1 && AllEmits(log) ==>
          after == before + DecisionDigests(log) && forall j :: 0 <= j < |log| ==> AtOnce(log[j], fates[j]))
  }

  lemma TookNone(maxAttempts: int, before: seq<Str>)
    ensures TookAll(maxAttempts, before, [], before, [])
  {
    var none: seq<Record> := [];
    assert DecisionDigests(none) == [];
    assert before + [] == before;
  }

  lemma Advance(maxAttempts: int, before: seq<Str>, log: seq<Record>, mid: seq<Str>, fates: seq<Fate>,
                r: Record, after: seq<Str>, fate: Fate)
    requires TookAll(maxAttempts, before, log, mid, fates) && TookOne(maxAttempts, mid, r, after, fate)
    ensures TookAll(maxAttempts, before, log + [r], after, fates + [fate])
  {
    var more := log + [r];
    assert more[..|log|] == log && more[|log|] == r;
    if maxAttempts >= 1 && AllEmits(more) {
      forall j | 0 <= j < |log| ensures Emits(log[j]) { assert more[j] == log[j]; }
      assert DecisionDigests(more) == DecisionDigests(log) + DigestsOf(r);
      Assoc(before, DecisionDigests(log), DigestsOf(r));
    }
  }

  method ConsumeNext(h: Hash, c: Config, maxAttempts: int, ghost before: seq<Str>, ghost done: seq<Record>,
                     s: State, fates: seq<Fate>, r: Record)
    returns (t: State, fates': seq<Fate>)
    requires Good(h, c, s) && Genuine(r.decoded) && TookAll(maxAttempts, before, done, s.accepted, fates)
    ensures Good(h, c, t) && TookAll(maxAttempts, before, done + [r], t.accepted, fates')
    ensures t == Processed(h, c, maxAttempts, s, r).state
  {
    var fate;
    t, fate := ConsumeOne(h, c, maxAttempts, s, r);
    Advance(maxAttempts, before, done, s.accepted, fates, r, t.accepted, fate);
    fates' := fates + [fate];
  }

  /** The consumer over a whole log. Whatever fails, the sealed batches followed by the open one are
      the accepted digests in arrival order, the open batch stays below the size limit, and each
      record ends once. If emits succeed, the accepted digests are those of the decisions in the
      log, each once, and every record that decodes is handled at its first attempt. */
  method Consume(h: Hash, c: Config, maxAttempts: int, start: State, log: seq<Record>)
    returns (s: State, fates: seq<Fate>)
    requires Good(h, c, start)
    requires forall k :: 0 <= k < |log| ==> Genuine(log[k].decoded)
    ensures Good(h, c, s) && TookAll(maxAttempts, start.accepted, log, s.accepted, fates)
    ensures s == AfterLog(h, c, maxAttempts, start, log)
    decreases |log|
  {
    if log == [] {
      TookNone(maxAttempts, start.accepted);
      return start, [];
    }
    var init := log[..|log| - 1];
    s, fates := Consume(h, c, maxAttempts, start, init);
    s, fates := ConsumeNext(h, c, maxAttempts, start.accepted, init, s, fates, log[|log| - 1]);
    assert log == init + [log[|log| - 1]];
  }

  // --------------------------------------------------------- what is anchored

  /** Any leaf of any sealed batch verifies against the root it was sealed under. */
  lemma SealedLeavesVerify(h: Hash, s: State, k: nat, i: nat)
    requires Conserved(h, s) && k < |s.anchors| && i < |s.anchors[k].leaves|
    ensures var a := s.anchors[k];
      VerifyProof(h, a.leaves[i], WriteAll(Path(h, ReadAll(a.leaves).value, i)), a.root) == Some(true)
  {
    var a := s.anchors[k];
    assert Rooted(h, a);
    var nodes := ReadAll(a.leaves).value;
    BuiltProofsVerify(h, Tree(a.root, a.leaves, Levels(h, nodes)), i);
  }

  /** A quiet period is anchored too: a tick no earlier than the age limit leaves nothing open. */
  lemma AgeFlushes(h: Hash, c: Config, s: State, t: Tick)
    requires Conserved(h, s) && t.checkedAt >= s.batch.openedAt + c.maxAgeMs
    ensures Ticked(h, c, s, t).batch.leaves == []
  {
    FlushKeeps(h, s, t.sealedAt, t.emitted);
  }

  /** A tick flushes exactly if something is open and there is as much as a batch may hold or it has
      been open as long as it may. */
  lemma TickFlushesExactly(h: Hash, c: Config, s: State, t: Tick)
    requires Conserved(h, s)
    ensures Ticked(h, c, s, t).batch.leaves == [] && s.batch.leaves != [] <==>
      s.batch.leaves != [] && (|s.batch.leaves| >= c.batchSize || t.checkedAt >= s.batch.openedAt + c.maxAgeMs)
    ensures Ticked(h, c, s, t).batch.leaves != [] ==> Ticked(h, c, s, t) == s
  {
    FlushKeeps(h, s, t.sealedAt, t.emitted);
  }

  /** And so does a decision, counting itself; otherwise it stays open behind the others. */
  lemma DecisionFlushesExactly(h: Hash, c: Config, s: State, event: Event, call: Call)
    requires Conserved(h, s) && event.DecisionEvent? && IsDigest(event.digest)
    ensures var (t, ok) := Handle(h, c, s, event, call);
      var since := if s.batch.leaves == [] then call.addedAt else s.batch.openedAt;
      if |s.batch.leaves| + 1 >= c.batchSize || call.checkedAt >= since + c.maxAgeMs
      then t.batch.leaves == [] && (ok <==> call.emitted)
      else ok && t.batch == Batch(s.batch.leaves + [event.digest], since)
  {
    TookKeeps(h, s, event.digest, call.addedAt);
    FlushKeeps(h, Took(s, event.digest, call.addedAt), call.sealedAt, call.emitted);
  }

  function AddedAll(b: Batch, adds: seq<(Str, int)>): Batch {
    if adds == [] then b
    else Added(AddedAll(b, adds[..|adds| - 1]), adds[|adds| - 1].0, adds[|adds| - 1].1)
  }

  /** The age of a batch counts from its first digest, whatever is added later. */
  lemma {:induction false} AgeFromFirst(b: Batch, adds: seq<(Str, int)>)
    requires b.leaves == [] && adds != []
    ensures AddedAll(b, adds).openedAt == adds[0].1 && |AddedAll(b, adds).leaves| == |adds|
    ensures forall i :: 0 <= i < |adds| ==> AddedAll(b, adds).leaves[i] == adds[i].0
  {
    if |adds| > 1 { AgeFromFirst(b, adds[..|adds| - 1]); } else { assert adds[..0] == []; }
  }

  function Published(anchors: seq<Anchor>): seq<Str> {
    if anchors == [] then []
    else
      var a := anchors[|anchors| - 1];
      Published(anchors[..|anchors| - 1]) + if a.published then a.leaves else []
  }

  lemma {:induction false} PublishedAtMost(anchors: seq<Anchor>)
    requires forall k :: 0 <= k < |anchors| ==> anchors[k].leaves != []
    ensures |Published(anchors)| <= |Leaves(anchors)|
    ensures |Published(anchors)| == |Leaves(anchors)| <==> forall k :: 0 <= k < |anchors| ==> anchors[k].published
    ensures (forall k :: 0 <= k < |anchors| ==> anchors[k].published) ==> Published(anchors) == Leaves(anchors)
  {
    if anchors != [] { PublishedAtMost(anchors[..|anchors| - 1]); }
  }

  /** Published batches and the open one hold every accepted digest exactly as often as it was
      accepted, in order, if and only if every emit of a sealed batch succeeded. */
  lemma PublishedExactlyOnce(h: Hash, s: State)
    requires Conserved(h, s)
    ensures Published(s.anchors) + s.batch.leaves == s.accepted <==>
      forall k :: 0 <= k < |s.anchors| ==> s.anchors[k].published
  {
    forall k | 0 <= k < |s.anchors| ensures s.anchors[k].leaves != [] { assert Rooted(h, s.anchors[k]); }
    PublishedAtMost(s.anchors);
  }

  /** Otherwise the retry does not make up for it: with two leaves to a batch and a first emit that
      fails, the second record is accepted twice, its second attempt succeeds, and the first record
      is on no published batch although both were handled. */
  lemma FailedEmitLosesALeaf(h: Hash, a: Event, b: Event)
    requires a.DecisionEvent? && b.DecisionEvent? && IsDigest(a.digest) && IsDigest(b.digest)
    ensures var c := Config(2, 1000);
      var fine := Call([], 0, 0, 0, true);
      var failing := Call([], 0, 0, 0, false);
      var s0 := State(Batch([], 0), [], []);
      var s1 := Handle(h, c, s0, a, fine);
      var s2 := Handle(h, c, s1.0, b, failing);
      var s3 := Handle(h, c, s2.0, b, fine);
      && s1.1 && !s2.1 && s3.1
      && s3.0.accepted == [a.digest, b.digest, b.digest]
      && Published(s3.0.anchors) + s3.0.batch.leaves == [b.digest]
  {
  }
}
