/** Whether a decision on the log is left out of every root: the exact condition, over whole runs of
    the anchoring consumer. */
module AnchorCoverage {
  import opened Text
  import opened Json
  import opened Hex
  import opened Merkle
  import opened Events
  import opened AnchorConsumer
  import Sorting

  /** A digest is under a published root or still in the open batch. */
  predicate OnRecord(s: State, x: Str) { x in Published(s.anchors) || x in s.batch.leaves }

  /** No digest of the open batch is published already. */
  ghost predicate Apart(s: State) { forall x :: x in s.batch.leaves ==> x !in Published(s.anchors) }

  ghost predicate Sane(h: Hash, s: State) { Conserved(h, s) && Apart(s) }

  // ---------------------------------------------------------------- published

  lemma PublishedSnoc(anchors: seq<Anchor>, a: Anchor)
    ensures Published(anchors + [a]) == Published(anchors) + if a.published then a.leaves else []
  {
    assert (anchors + [a])[..|anchors|] == anchors;
  }

  lemma {:induction false} PublishedInLeaves(anchors: seq<Anchor>, x: Str)
    requires x in Published(anchors)
    ensures x in Leaves(anchors)
  {
    if x in Published(anchors[..|anchors| - 1]) { PublishedInLeaves(anchors[..|anchors| - 1], x); }
  }

  lemma RecordedWasAccepted(h: Hash, s: State, x: Str)
    requires Conserved(h, s) && OnRecord(s, x)
    ensures x in s.accepted
  {
    if x in Published(s.anchors) { PublishedInLeaves(s.anchors, x); }
    assert x in Leaves(s.anchors) + s.batch.leaves;
  }

  // -------------------------------------------------------------------- steps

  lemma SealRecords(s: State, a: Anchor, t: State)
    requires a.leaves == s.batch.leaves && t.anchors == s.anchors + [a] && t.batch.leaves == []
    ensures forall x :: OnRecord(t, x) <==> x in Published(s.anchors) || (a.published && x in s.batch.leaves)
  {
    PublishedSnoc(s.anchors, a);
  }

  /** A flush that emits keeps everything on record; one that fails loses the open batch. */
  lemma FlushRecords(h: Hash, s: State, now: int, emitted: bool)
    requires Conserved(h, s)
    ensures var t := Flushed(h, s, now, emitted).0;
      && Conserved(h, t) && t.batch.leaves == [] && t.accepted == s.accepted
      && forall x :: OnRecord(t, x) <==> x in Published(s.anchors) || (emitted && x in s.batch.leaves)
  {
    FlushKeeps(h, s, now, emitted);
    OpenReadable(s);
    if s.batch.leaves != [] {
      var a := Anchor(ToHex(Root(h, ReadAll(s.batch.leaves).value)), s.batch.leaves, emitted);
      SealRecords(s, a, Flushed(h, s, now, emitted).0);
    }
  }

  /** The timer does no harm: it does not fire, or its emit succeeds. */
  predicate TickSpares(c: Config, s: State, t: Tick) { Due(c, s.batch, t.checkedAt) ==> t.emitted }

  predicate TicksSpare(h: Hash, c: Config, s: State, ts: seq<Tick>) {
    ts == [] || (TicksSpare(h, c, s, ts[..|ts| - 1]) && TickSpares(c, TickedAll(h, c, s, ts[..|ts| - 1]), ts[|ts| - 1]))
  }

  ghost predicate SameRecord(s: State, t: State) { forall x :: OnRecord(t, x) <==> OnRecord(s, x) }

  ghost predicate Loses(s: State, t: State) { exists x :: OnRecord(s, x) && !OnRecord(t, x) }

  ghost predicate AddsNothing(s: State, t: State) { forall x :: OnRecord(t, x) ==> OnRecord(s, x) }

  lemma TickRecords(h: Hash, c: Config, s: State, t: Tick)
    requires Conserved(h, s)
    ensures var u := Ticked(h, c, s, t);
      && Conserved(h, u) && u.accepted == s.accepted && AddsNothing(s, u)
      && (TickSpares(c, s, t) ==> SameRecord(s, u))
      && (Apart(s) ==> Apart(u) && (!TickSpares(c, s, t) ==> Loses(s, u)))
  {
    FlushRecords(h, s, t.sealedAt, t.emitted);
    if Apart(s) && !TickSpares(c, s, t) {
      var x := s.batch.leaves[0];
      assert OnRecord(s, x) && !OnRecord(Ticked(h, c, s, t), x);
    }
  }

  lemma {:induction false} TicksRecord(h: Hash, c: Config, s: State, ts: seq<Tick>)
    requires Conserved(h, s)
    ensures var u := TickedAll(h, c, s, ts);
      && Conserved(h, u) && u.accepted == s.accepted && AddsNothing(s, u)
      && (TicksSpare(h, c, s, ts) ==> SameRecord(s, u))
      && (Apart(s) ==> Apart(u) && (!TicksSpare(h, c, s, ts) ==> Loses(s, u)))
  {
    if ts != [] {
      TicksRecord(h, c, s, ts[..|ts| - 1]);
      TickRecords(h, c, TickedAll(h, c, s, ts[..|ts| - 1]), ts[|ts| - 1]);
    }
  }

  lemma {:induction false} IdleTicks(h: Hash, c: Config, s: State, ts: seq<Tick>)
    requires s.batch.leaves == []
    ensures TickedAll(h, c, s, ts) == s
  {
    if ts != [] { IdleTicks(h, c, s, ts[..|ts| - 1]); }
  }

  // ------------------------------------------------------------------ attempts

  /** An attempt that finds this batch open returns: nothing is due, or the emit succeeds. */
  predicate Clear(c: Config, open: Batch, digest: Str, call: Call) {
    call.emitted || !Due(c, Added(open, digest, call.addedAt), call.checkedAt)
  }

  /** Delivering a fresh digest keeps open and published apart. */
  ghost predicate ApartIfFresh(s: State, digest: Str, t: State) {
    Apart(s) && digest !in Published(s.anchors) ==> Apart(t)
  }

  /** One delivery of a digest. */
  lemma HandleRecords(h: Hash, c: Config, s: State, event: Event, call: Call)
    requires Conserved(h, s) && event.DecisionEvent? && IsDigest(event.digest)
    ensures var (t, ok) := Handle(h, c, s, event, call);
      && Conserved(h, t) && t.accepted == s.accepted + [event.digest]
      && ApartIfFresh(s, event.digest, t) && (ok <==> Clear(c, s.batch, event.digest, call))
      && (ok ==> forall x :: OnRecord(t, x) <==> OnRecord(s, x) || x == event.digest)
      && (!ok ==> t.batch.leaves == [] && forall x :: OnRecord(t, x) <==> x in Published(s.anchors))
  {
    var u := Took(s, event.digest, call.addedAt);
    TookKeeps(h, s, event.digest, call.addedAt);
    FlushRecords(h, u, call.sealedAt, call.emitted);
    FlushKeeps(h, u, call.sealedAt, call.emitted);
  }

  /** A later attempt, which finds nothing open, returns. */
  ghost predicate Recovers(c: Config, digest: Str, calls: nat -> Call, n: nat, maxAttempts: int) {
    exists m: nat :: n < m <= maxAttempts && RetryClear(c, digest, calls, m)
  }

  predicate RetryClear(c: Config, digest: Str, calls: nat -> Call, m: nat) { Clear(c, Batch([], 0), digest, calls(m)) }

  lemma RecoversNext(c: Config, digest: Str, calls: nat -> Call, n: nat, maxAttempts: int)
    requires n < maxAttempts
    ensures Recovers(c, digest, calls, n, maxAttempts)
       <==> RetryClear(c, digest, calls, n + 1) || Recovers(c, digest, calls, n + 1, maxAttempts)
  {
  }

  /** Nobody else's digest is affected, and the record's own is added if it was handled. */
  ghost predicate Outcome(s: State, digest: Str, handled: bool, t: State) {
    && (forall x :: x in t.accepted ==> x in s.accepted || x == digest)
    && forall x :: OnRecord(t, x) <==> OnRecord(s, x) || (x == digest && handled)
  }

  lemma OutcomeChains(s: State, digest: Str, t: State, handled: bool, u: State)
    requires Outcome(s, digest, false, t) && Outcome(t, digest, handled, u)
    ensures Outcome(s, digest, handled, u)
  {
  }

  lemma ApartChains(s: State, digest: Str, t: State, u: State)
    requires s.batch.leaves == [] && Outcome(s, digest, false, t)
    requires ApartIfFresh(s, digest, t) && ApartIfFresh(t, digest, u)
    ensures ApartIfFresh(s, digest, u)
  {
    assert OnRecord(t, digest) <==> OnRecord(s, digest);
  }

  /** One retry. */
  lemma RetryRecords(h: Hash, c: Config, s: State, event: Event, calls: nat -> Call, n: nat)
    requires Conserved(h, s) && s.batch.leaves == [] && event.DecisionEvent? && IsDigest(event.digest)
    ensures var (t, ok) := Handle(h, c, s, event, calls(n));
      && Conserved(h, t) && (ok <==> RetryClear(c, event.digest, calls, n)) && Outcome(s, event.digest, ok, t)
      && ApartIfFresh(s, event.digest, t) && (!ok ==> t.batch.leaves == [])
  {
    HandleRecords(h, c, s, event, calls(n));
  }

  lemma DeliverNext(h: Hash, c: Config, s: State, event: Event, calls: nat -> Call, n: nat, maxAttempts: int, w: bool)
    requires s.batch.leaves == [] && n < maxAttempts
    ensures var (t, ok) := Handle(h, c, s, event, calls(n + 1));
      DeliverFrom(s, n, maxAttempts, Attempt(h, c, event, calls), w) ==
      if ok then Delivery(t, Handled(n + 1), n + 1)
      else DeliverFrom(t, n + 1, maxAttempts, Attempt(h, c, event, calls), w)
  {
    IdleTicks(h, c, s, calls(n + 1).ticks);
  }

  /** What the retries come to. */
  ghost predicate RetryResult(h: Hash, c: Config, s: State, digest: Str, calls: nat -> Call, n: nat, maxAttempts: int,
                              d: Delivery<State>) {
    && Conserved(h, d.state) && Outcome(s, digest, d.fate.Handled?, d.state) && ApartIfFresh(s, digest, d.state)
    && (d.fate.Handled? <==> Recovers(c, digest, calls, n, maxAttempts))
  }

  lemma ResultLater(h: Hash, c: Config, s: State, t: State, digest: Str, calls: nat -> Call, n: nat, maxAttempts: int,
                    d: Delivery<State>)
    requires n < maxAttempts && !RetryClear(c, digest, calls, n + 1)
    requires s.batch.leaves == [] && Outcome(s, digest, false, t) && ApartIfFresh(s, digest, t)
    requires RetryResult(h, c, t, digest, calls, n + 1, maxAttempts, d)
    ensures RetryResult(h, c, s, digest, calls, n, maxAttempts, d)
  {
    RecoversNext(c, digest, calls, n, maxAttempts);
    OutcomeChains(s, digest, t, d.fate.Handled?, d.state);
    ApartChains(s, digest, t, d.state);
  }

  lemma ResultNow(h: Hash, c: Config, s: State, t: State, digest: Str, calls: nat -> Call, n: nat, maxAttempts: int)
    requires n < maxAttempts && RetryClear(c, digest, calls, n + 1)
    requires Conserved(h, t) && Outcome(s, digest, true, t) && ApartIfFresh(s, digest, t)
    ensures RetryResult(h, c, s, digest, calls, n, maxAttempts, Delivery(t, Handled(n + 1), n + 1))
  {
    RecoversNext(c, digest, calls, n, maxAttempts);
  }

  /** The retries after a failed attempt: nothing is open, so only the record itself is at stake. */
  lemma {:induction false} RetriesRecord(h: Hash, c: Config, s: State, event: Event, calls: nat -> Call, n: nat,
                                         maxAttempts: int, w: bool)
    requires Conserved(h, s) && s.batch.leaves == [] && event.DecisionEvent? && IsDigest(event.digest)
    ensures RetryResult(h, c, s, event.digest, calls, n, maxAttempts,
                        DeliverFrom(s, n, maxAttempts, Attempt(h, c, event, calls), w))
    decreases maxAttempts - n
  {
    if n < maxAttempts {
      var (t, ok) := Handle(h, c, s, event, calls(n + 1));
      DeliverNext(h, c, s, event, calls, n, maxAttempts, w);
      RetryRecords(h, c, s, event, calls, n + 1);
      if ok {
        ResultNow(h, c, s, t, event.digest, calls, n, maxAttempts);
      } else {
        RetriesRecord(h, c, t, event, calls, n + 1, maxAttempts, w);
        ResultLater(h, c, s, t, event.digest, calls, n, maxAttempts,
                    DeliverFrom(t, n + 1, maxAttempts, Attempt(h, c, event, calls), w));
      }
    }
  }

  // ------------------------------------------------------------------- records

  /** The first attempt at a decision returns, or it fails with nothing else open and a retry
      returns. */
  ghost predicate FirstSpares(c: Config, open: Batch, digest: Str, calls: nat -> Call, maxAttempts: int) {
    Clear(c, open, digest, calls(1)) || (open.leaves == [] && Recovers(c, digest, calls, 1, maxAttempts))
  }

  /** A record does no harm: it is not decodable, or it is tried, the timer spares the open batch
      before it, and if it is a decision its own flush takes nobody down. */
  ghost predicate Spares(h: Hash, c: Config, maxAttempts: int, s: State, r: Record) {
    match r.decoded
    case Rejected(_) => true
    case Ok(OtherEvent) => maxAttempts >= 1 ==> TicksSpare(h, c, s, r.calls(1).ticks)
    case Ok(DecisionEvent(_, _, digest)) =>
      && maxAttempts >= 1 && TicksSpare(h, c, s, r.calls(1).ticks)
      && FirstSpares(c, TickedAll(h, c, s, r.calls(1).ticks).batch, digest, r.calls, maxAttempts)
  }

  /** The digests that must be on record after the record: those that were, and its own. */
  ghost predicate Wanted(s: State, r: Record, x: Str) { OnRecord(s, x) || x in DigestsOf(r) }

  ghost predicate KeepsAll(s: State, r: Record, t: State) { forall x :: Wanted(s, r, x) ==> OnRecord(t, x) }

  lemma OtherRecords(h: Hash, c: Config, maxAttempts: int, s: State, r: Record)
    requires Conserved(h, s) && r.decoded == Ok(OtherEvent)
    ensures var t := Processed(h, c, maxAttempts, s, r).state;
      && Conserved(h, t) && t.accepted == s.accepted && AddsNothing(s, t)
      && (Spares(h, c, maxAttempts, s, r) ==> KeepsAll(s, r, t))
      && (Apart(s) ==> Apart(t) && (KeepsAll(s, r, t) ==> Spares(h, c, maxAttempts, s, r)))
  {
    TicksRecord(h, c, s, r.calls(1).ticks);
    if maxAttempts >= 1 {
      var t := TickedAll(h, c, s, r.calls(1).ticks);
      assert Processed(h, c, maxAttempts, s, r).state == t;
      if Loses(s, t) {
        var x :| OnRecord(s, x) && !OnRecord(t, x);
        assert Wanted(s, r, x);
      }
    }
  }

  /** The state after the first attempt and whether it returned. */
  function FirstTry(h: Hash, c: Config, s: State, event: Event, calls: nat -> Call): (State, bool) {
    Handle(h, c, TickedAll(h, c, s, calls(1).ticks), event, calls(1))
  }

  lemma FirstThenRetries(h: Hash, c: Config, maxAttempts: int, s: State, r: Record)
    requires r.decoded.Ok? && maxAttempts >= 1
    ensures var (t, ok) := FirstTry(h, c, s, r.decoded.event, r.calls);
      Processed(h, c, maxAttempts, s, r) ==
      if ok then Delivery(t, Handled(1), 1)
      else DeliverFrom(t, 1, maxAttempts, Attempt(h, c, r.decoded.event, r.calls), r.letterWritten)
  {
  }

  /** What a decision leaves on record after all its attempts, from the state after the timer. */
  lemma TriesRecord(h: Hash, c: Config, maxAttempts: int, s: State, r: Record)
    requires Conserved(h, s) && r.decoded.Ok? && r.decoded.event.DecisionEvent? && maxAttempts >= 1
    requires IsDigest(r.decoded.event.digest)
    ensures var digest := r.decoded.event.digest;
      var u := TickedAll(h, c, s, r.calls(1).ticks);
      var t := Processed(h, c, maxAttempts, s, r).state;
      && Conserved(h, t) && (forall x :: x in t.accepted ==> x in s.accepted || x == digest)
      && ApartIfFresh(u, digest, t)
      && (Clear(c, u.batch, digest, r.calls(1)) ==> forall x :: OnRecord(t, x) <==> OnRecord(u, x) || x == digest)
      && (!Clear(c, u.batch, digest, r.calls(1)) ==>
            forall x :: OnRecord(t, x) <==>
              x in Published(u.anchors) || (x == digest && Recovers(c, digest, r.calls, 1, maxAttempts)))
  {
    var event := r.decoded.event;
    var u := TickedAll(h, c, s, r.calls(1).ticks);
    TicksRecord(h, c, s, r.calls(1).ticks);
    HandleRecords(h, c, u, event, r.calls(1));
    FirstThenRetries(h, c, maxAttempts, s, r);
    var (t, ok) := FirstTry(h, c, s, event, r.calls);
    if !ok {
      assert event.digest in Published(t.anchors) ==> OnRecord(t, event.digest);
      RetriesRecord(h, c, t, event, r.calls, 1, maxAttempts, r.letterWritten);
    }
  }

  /** A decision that does no harm: everything stays on record, and it is on record itself. */
  lemma DecisionRecords(h: Hash, c: Config, maxAttempts: int, s: State, r: Record)
    requires Conserved(h, s) && r.decoded.Ok? && r.decoded.event.DecisionEvent? && IsDigest(r.decoded.event.digest)
    ensures var t := Processed(h, c, maxAttempts, s, r).state;
      && Conserved(h, t) && (forall x :: x in t.accepted ==> x in s.accepted || x in DigestsOf(r))
      && (forall x :: OnRecord(t, x) ==> Wanted(s, r, x))
      && (Spares(h, c, maxAttempts, s, r) ==> KeepsAll(s, r, t))
  {
    if maxAttempts >= 1 {
      TicksRecord(h, c, s, r.calls(1).ticks);
      TriesRecord(h, c, maxAttempts, s, r);
    }
  }

  /** A fresh decision that does harm: it or something else goes missing. */
  lemma FreshDecisionRecords(h: Hash, c: Config, maxAttempts: int, s: State, r: Record)
    requires Sane(h, s) && r.decoded.Ok? && r.decoded.event.DecisionEvent?
    requires IsDigest(r.decoded.event.digest) && r.decoded.event.digest !in s.accepted
    ensures var t := Processed(h, c, maxAttempts, s, r).state;
      Apart(t) && (KeepsAll(s, r, t) ==> Spares(h, c, maxAttempts, s, r))
  {
    var digest := r.decoded.event.digest;
    var t := Processed(h, c, maxAttempts, s, r).state;
    assert Wanted(s, r, digest);
    forall x | OnRecord(s, x) ensures x in s.accepted && x != digest { RecordedWasAccepted(h, s, x); }
    if maxAttempts >= 1 {
      var u := TickedAll(h, c, s, r.calls(1).ticks);
      TicksRecord(h, c, s, r.calls(1).ticks);
      assert digest in Published(u.anchors) ==> OnRecord(u, digest);
      TriesRecord(h, c, maxAttempts, s, r);
      if Loses(s, u) {
        var x :| OnRecord(s, x) && !OnRecord(u, x);
        assert Wanted(s, r, x) && !OnRecord(t, x);
      } else if !Clear(c, u.batch, digest, r.calls(1)) && u.batch.leaves != [] {
        var x := u.batch.leaves[0];
        assert OnRecord(u, x) && Wanted(s, r, x) && !OnRecord(t, x);
      }
    }
  }

  // ---------------------------------------------------------------------- runs

  ghost predicate Fresh(s: State, r: Record) { forall x :: x in DigestsOf(r) ==> x !in s.accepted }

  /** The step from one record to the next. A record that does no harm keeps everything on record,
      its own digest included; for a fresh one that is the exact condition. */
  lemma RecordRecords(h: Hash, c: Config, maxAttempts: int, s: State, r: Record)
    requires Conserved(h, s) && Genuine(r.decoded)
    ensures var t := Processed(h, c, maxAttempts, s, r).state;
      && Conserved(h, t) && (forall x :: x in t.accepted ==> x in s.accepted || x in DigestsOf(r))
      && (forall x :: OnRecord(t, x) ==> Wanted(s, r, x))
      && (Spares(h, c, maxAttempts, s, r) ==> KeepsAll(s, r, t))
      && (Apart(s) && Fresh(s, r) ==> Apart(t) && (KeepsAll(s, r, t) ==> Spares(h, c, maxAttempts, s, r)))
  {
    match r.decoded
    case Rejected(_) =>
    case Ok(OtherEvent) => OtherRecords(h, c, maxAttempts, s, r);
    case Ok(DecisionEvent(_, _, digest)) =>
      assert digest in DigestsOf(r);
      DecisionRecords(h, c, maxAttempts, s, r);
      if Apart(s) && Fresh(s, r) { FreshDecisionRecords(h, c, maxAttempts, s, r); }
  }

  /** No record of the log does harm at the point where it is processed. */
  ghost predicate LogSpares(h: Hash, c: Config, maxAttempts: int, start: State, log: seq<Record>) {
    log == []
    || (var init := log[..|log| - 1];
        LogSpares(h, c, maxAttempts, start, init)
        && Spares(h, c, maxAttempts, AfterLog(h, c, maxAttempts, start, init), log[|log| - 1]))
  }

  ghost predicate NoneLeftOut(s: State, log: seq<Record>) { forall x :: x in DecisionDigests(log) ==> OnRecord(s, x) }

  ghost predicate News(before: seq<Str>, own: seq<Str>) { forall x :: x in own ==> x !in before }

  lemma DistinctParts(a: seq<Str>, b: seq<Str>)
    requires Sorting.Distinct(a + b)
    ensures Sorting.Distinct(a) && News(a, b)
  {
    var all := a + b;
    forall i, j | 0 <= i < j < |a| ensures a[i] != a[j] { assert all[i] == a[i] && all[j] == a[j]; }
    forall x | x in b ensures x !in a {
      var j :| 0 <= j < |b| && b[j] == x;
      assert all[|a| + j] == x;
      forall i | 0 <= i < |a| ensures a[i] != x { assert all[i] == a[i]; }
    }
  }

  /** What every run keeps, and the exact condition so far. */
  lemma {:induction false} RunRecords(h: Hash, c: Config, maxAttempts: int, openedAt: int, log: seq<Record>)
    requires forall k :: 0 <= k < |log| ==> Genuine(log[k].decoded)
    requires Sorting.Distinct(DecisionDigests(log))
    ensures var start := State(Batch([], openedAt), [], []);
      var s := AfterLog(h, c, maxAttempts, start, log);
      && Sane(h, s) && (forall x :: x in s.accepted ==> x in DecisionDigests(log))
      && (NoneLeftOut(s, log) <==> LogSpares(h, c, maxAttempts, start, log))
  {
    if log != [] {
      var init, r := log[..|log| - 1], log[|log| - 1];
      var start := State(Batch([], openedAt), [], []);
      var s := AfterLog(h, c, maxAttempts, start, init);
      DistinctParts(DecisionDigests(init), DigestsOf(r));
      RunRecords(h, c, maxAttempts, openedAt, init);
      assert Genuine(r.decoded);
      RecordRecords(h, c, maxAttempts, s, r);
      StepLeavesOut(h, s, log, Processed(h, c, maxAttempts, s, r).state);
    }
  }

  lemma StepLeavesOut(h: Hash, s: State, log: seq<Record>, t: State)
    requires log != [] && Sane(h, s) && Fresh(s, log[|log| - 1])
    requires Sorting.Distinct(DecisionDigests(log))
    requires forall x :: x in s.accepted ==> x in DecisionDigests(log[..|log| - 1])
    requires forall x :: OnRecord(t, x) ==> Wanted(s, log[|log| - 1], x)
    ensures NoneLeftOut(t, log) <==> NoneLeftOut(s, log[..|log| - 1]) && KeepsAll(s, log[|log| - 1], t)
  {
    var init, r := log[..|log| - 1], log[|log| - 1];
    assert forall x :: x in DecisionDigests(log) <==> x in DecisionDigests(init) || x in DigestsOf(r);
    forall x | OnRecord(s, x) ensures x in DecisionDigests(init) { RecordedWasAccepted(h, s, x); }
    DistinctParts(DecisionDigests(init), DigestsOf(r));
  }

  lemma {:induction false} SparedRun(h: Hash, c: Config, maxAttempts: int, start: State, log: seq<Record>)
    requires Conserved(h, start) && forall k :: 0 <= k < |log| ==> Genuine(log[k].decoded)
    ensures Conserved(h, AfterLog(h, c, maxAttempts, start, log))
    ensures LogSpares(h, c, maxAttempts, start, log) ==> NoneLeftOut(AfterLog(h, c, maxAttempts, start, log), log)
  {
    if log != [] {
      var init, r := log[..|log| - 1], log[|log| - 1];
      SparedRun(h, c, maxAttempts, start, init);
      assert Genuine(r.decoded);
      RecordRecords(h, c, maxAttempts, AfterLog(h, c, maxAttempts, start, init), r);
    }
  }

  /** On every log, with records delivered again as well: if no record does harm and neither does
      the timer afterwards, no decision on the log is left out. */
  lemma SparedLogLeavesNothingOut(h: Hash, c: Config, maxAttempts: int, start: State, log: seq<Record>,
                                  ticks: seq<Tick>)
    requires Conserved(h, start) && forall k :: 0 <= k < |log| ==> Genuine(log[k].decoded)
    requires LogSpares(h, c, maxAttempts, start, log)
    requires TicksSpare(h, c, AfterLog(h, c, maxAttempts, start, log), ticks)
    ensures var s := TickedAll(h, c, AfterLog(h, c, maxAttempts, start, log), ticks);
      Conserved(h, s) && NoneLeftOut(s, log)
  {
    SparedRun(h, c, maxAttempts, start, log);
    TicksRecord(h, c, AfterLog(h, c, maxAttempts, start, log), ticks);
  }

  /** On a log that delivers each decision once, no decision is left out, each is under a published
      root or still open, exactly if no record does harm and neither does the timer afterwards: the
      timer's emits of an open batch succeed, every decision is tried, and a first attempt fails only
      with nothing else open and is made good by a retry. Failed emits as such lose nothing. */
  lemma NothingLeftOutExactly(h: Hash, c: Config, maxAttempts: int, openedAt: int, log: seq<Record>, ticks: seq<Tick>)
    requires forall k :: 0 <= k < |log| ==> Genuine(log[k].decoded)
    requires Sorting.Distinct(DecisionDigests(log))
    ensures var start := State(Batch([], openedAt), [], []);
      var s := AfterLog(h, c, maxAttempts, start, log);
      NoneLeftOut(TickedAll(h, c, s, ticks), log)
      <==> LogSpares(h, c, maxAttempts, start, log) && TicksSpare(h, c, s, ticks)
  {
    var s := AfterLog(h, c, maxAttempts, State(Batch([], openedAt), [], []), log);
    RunRecords(h, c, maxAttempts, openedAt, log);
    TicksRecord(h, c, s, ticks);
    if Loses(s, TickedAll(h, c, s, ticks)) {
      var x :| OnRecord(s, x) && !OnRecord(TickedAll(h, c, s, ticks), x);
      RecordedWasAccepted(h, s, x);
    }
  }

  lemma SealedAlone(h: Hash, s: State, e: Event, emitted: bool)
    requires e.DecisionEvent? && IsDigest(e.digest) && s.batch == Batch([], 0)
    ensures ReadAll([e.digest]).Some?
    ensures Handle(h, Config(1, 1000), s, e, Call([], 0, 0, 0, emitted))
         == (State(Batch([], 0), s.anchors + [Anchor(ToHex(Root(h, ReadAll([e.digest]).value)), [e.digest], emitted)],
                   s.accepted + [e.digest]), emitted)
  {
    DigestReads(e.digest);
    var t := Took(s, e.digest, 0);
    assert t.batch.leaves == [e.digest];
    assert Due(Config(1, 1000), t.batch, 0);
  }

  /** With one leaf to a batch a failed emit followed by a good one leaves nobody out, although the
      digest has been accepted twice. */
  lemma RetriedEmitLosesNothing(h: Hash, e: Event)
    requires e.DecisionEvent? && IsDigest(e.digest)
    ensures var s0 := State(Batch([], 0), [], []);
      var (s1, first) := Handle(h, Config(1, 1000), s0, e, Call([], 0, 0, 0, false));
      var (s2, second) := Handle(h, Config(1, 1000), s1, e, Call([], 0, 0, 0, true));
      && !first && second && s2.accepted == [e.digest, e.digest] && Published(s2.anchors) == [e.digest]
  {
    var s0 := State(Batch([], 0), [], []);
    SealedAlone(h, s0, e, false);
    var s1 := Handle(h, Config(1, 1000), s0, e, Call([], 0, 0, 0, false)).0;
    SealedAlone(h, s1, e, true);
    var s2 := Handle(h, Config(1, 1000), s1, e, Call([], 0, 0, 0, true)).0;
    PublishedSnoc([], s1.anchors[0]);
    PublishedSnoc(s1.anchors, s2.anchors[1]);
  }
}
