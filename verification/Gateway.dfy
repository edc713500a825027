/** The authorization gateway as one state machine. A handler runs without interruption from one
    await to the next; a run is any interleaving of such sections of any number of requests. */
module Gateway {
  import opened Text
  import opened Json
  import opened Intents
  import Policy

  // ------------------------------------------------------------ the guard call

  datatype GuardCall = GuardCall(chainId: SafeInt, guard: Str, args: Str)

  function OpIndex(op: Op): SafeInt {
    match op
    case GTE => 0
    case LTE => 1
    case EQ => 2
    case REL_DEC_MAX => 3
    case REL_INC_MAX => 4
  }

  function CallJson(c: Call): Json { Arr([Text(c.target), Text(c.value), Text(c.data)]) }

  function InvariantJson(v: Invariant): Json {
    Arr([Text(v.target), Text(v.probe), Num(v.word), Num(OpIndex(v.op)), Text(v.threshold)])
  }

  function CallsJson(cs: seq<Call>): (r: seq<Json>)
    ensures |r| == |cs| && forall k :: 0 <= k < |r| ==> r[k] == CallJson(cs[k])
  {
    seq(|cs|, k requires 0 <= k < |cs| => CallJson(cs[k]))
  }

  function InvariantsJson(vs: seq<Invariant>): (r: seq<Json>)
    ensures |r| == |vs| && forall k :: 0 <= k < |r| ==> r[k] == InvariantJson(vs[k])
  {
    seq(|vs|, k requires 0 <= k < |vs| => InvariantJson(vs[k]))
  }

  function Args(i: Intent): Json { Arr([Arr(CallsJson(i.calls)), Arr(InvariantsJson(i.invariants))]) }

  function ToGuardCall(i: Intent, guard: Str): GuardCall { GuardCall(i.chainId, guard, Emit(Args(i))) }

  /** The arguments as the guard contract declares them: the calls as target, value and data, then the
      invariants as target, probe, word, comparison and threshold; the comparisons are numbered in the
      order of its enumeration. */
  lemma ArgsMean(i: Intent, guard: Str, k: nat)
    ensures var g := ToGuardCall(i, guard);
      && g.chainId == i.chainId && g.guard == guard
      && Parse(g.args) == Some((Arr([Arr(CallsJson(i.calls)), Arr(InvariantsJson(i.invariants))]), []))
    ensures k < |i.calls| ==>
      var c := i.calls[k];
      CallsJson(i.calls)[k] == Arr([Text(c.target), Text(c.value), Text(c.data)])
    ensures k < |i.invariants| ==>
      var v := i.invariants[k];
      var op := OpIndex(v.op);
      && 0 <= op < 5 && [GTE, LTE, EQ, REL_DEC_MAX, REL_INC_MAX][op] == v.op
      && InvariantsJson(i.invariants)[k]
      == Arr([Text(v.target), Text(v.probe), Num(v.word), Num(op), Text(v.threshold)])
  {
    ArgsPure(i);
    ParseEmit(Args(i), []);
    assert Emit(Args(i)) + [] == Emit(Args(i));
  }

  lemma ArgsPure(i: Intent)
    ensures Pure(Args(i))
  {
    assert forall k :: 0 <= k < |i.calls| ==> Pure(CallsJson(i.calls)[k]);
    assert forall k :: 0 <= k < |i.invariants| ==> Pure(InvariantsJson(i.invariants)[k]);
  }

  lemma CallsJsonInjective(a: seq<Call>, b: seq<Call>)
    requires CallsJson(a) == CallsJson(b)
    ensures a == b
  {
    assert |CallsJson(a)| == |CallsJson(b)|;
    forall k | 0 <= k < |a| ensures a[k] == b[k] {
      assert CallsJson(a)[k] == CallsJson(b)[k];
      assert CallJson(a[k]).items == CallJson(b[k]).items;
      assert CallJson(a[k]).items[0] == CallJson(b[k]).items[0] && CallJson(a[k]).items[1] == CallJson(b[k]).items[1];
      assert CallJson(a[k]).items[2] == CallJson(b[k]).items[2];
    }
  }

  lemma InvariantsJsonInjective(a: seq<Invariant>, b: seq<Invariant>)
    requires InvariantsJson(a) == InvariantsJson(b)
    ensures a == b
  {
    assert |InvariantsJson(a)| == |InvariantsJson(b)|;
    forall k | 0 <= k < |a| ensures a[k] == b[k] {
      assert InvariantsJson(a)[k] == InvariantsJson(b)[k];
      var x, y := InvariantJson(a[k]).items, InvariantJson(b[k]).items;
      assert x[0] == y[0] && x[1] == y[1] && x[2] == y[2] && x[3] == y[3] && x[4] == y[4];
    }
  }

  /** What is simulated and broadcast determines chain, calls and invariants, and nothing else of
      the intent. */
  lemma GuardCallCommits(i: Intent, j: Intent, guard: Str)
    ensures ToGuardCall(i, guard) == ToGuardCall(j, guard) <==>
      i.chainId == j.chainId && i.calls == j.calls && i.invariants == j.invariants
  {
    if ToGuardCall(i, guard) == ToGuardCall(j, guard) {
      ArgsPure(i);
      ArgsPure(j);
      EmitInjective(Args(i), Args(j));
      assert Args(i).items[0] == Args(j).items[0] && Args(i).items[1] == Args(j).items[1];
      CallsJsonInjective(i.calls, j.calls);
      InvariantsJsonInjective(i.invariants, j.invariants);
    }
  }

  // ------------------------------------------------------------- hold ledger

  datatype HoldStatus = Held | Released | Cancelled

  datatype HoldRecord = HoldRecord(intent: Intent, key: Str, status: HoldStatus, at: int, resolvedAt: Option<int>)

  type Holds = map<Str, HoldRecord>

  function Created(hs: Holds, id: Str, intent: Intent, key: Str, at: int): Holds {
    hs[id := HoldRecord(intent, key, Held, at, None)]
  }

  predicate Open(hs: Holds, id: Str) { id in hs && hs[id].status == Held }

  function Resolved(hs: Holds, id: Str, status: HoldStatus, at: int): Holds {
    if Open(hs, id) then hs[id := hs[id].(status := status, resolvedAt := Some(at))] else hs
  }

  class HoldLedger {
    var records: Holds

    constructor ()
      ensures records == map[]
    {
      records := map[];
    }

    method Create(id: Str, intent: Intent, key: Str, at: int) returns (r: HoldRecord)
      modifies this
      ensures records == Created(old(records), id, intent, key, at) && r == records[id]
    {
      r := HoldRecord(intent, key, Held, at, None);
      records := records[id := r];
    }

    method Resolve(id: Str, status: HoldStatus, at: int) returns (r: Option<HoldRecord>)
      modifies this
      ensures records == Resolved(old(records), id, status, at)
      ensures r == if Open(old(records), id) then Some(records[id]) else None
    {
      if id !in records || records[id].status != Held { return None; }
      var resolved := records[id].(status := status, resolvedAt := Some(at));
      records := records[id := resolved];
      return Some(resolved);
    }
  }

  // ------------------------------------------------------------------ steps

  datatype Config = Config(policy: Policy.Policy, guard: Str)

  datatype Route = ToAuthorize | ToExecute | ToHold

  /** Where a request stands: waiting for the simulation, waiting for the receipt to be stored, or
      answered. */
  datatype Phase = Simulating | Storing(verdict: Verdict) | Answered

  /** `first` is the verdict of the rules alone, reached at `now`. */
  datatype Request = Request(route: Route, intent: Intent, key: Str, now: int, first: Verdict, phase: Phase)

  datatype Origin = FromRequest(request: nat) | FromHold(id: Str)

  datatype Broadcast = Broadcast(call: GuardCall, key: Str, origin: Origin)

  /** A simulation that has returned. */
  datatype Simulated = Simulated(request: nat, call: GuardCall, wouldRevert: bool)

  datatype State = State(requests: seq<Request>, simulations: seq<Simulated>, holds: Holds, broadcasts: seq<Broadcast>)

  const START := State([], [], map[], [])

  /** One uninterrupted section of a handler. In `Return` None is a simulation that threw; `holdId`
      is the id the ledger draws if the section creates a hold. */
  datatype Step =
    | Arrive(route: Route, intent: Option<Intent>, key: Str, now: int)
    | Return(request: nat, wouldRevert: Option<bool>)
    | Stored(request: nat, holdId: Str, at: int)
    | Release(holdId: Str, at: int)
    | Cancel(holdId: Str, at: int)

  predicate InPhase(s: State, r: nat, phase: Phase) { r < |s.requests| && s.requests[r].phase == phase }

  /** The gateway keeps no history and knows no counterparties. */
  function ContextFor(now: int): Policy.Context { Policy.Context(now, [], None, []) }

  function Judge(c: Config, intent: Intent, now: int): Option<Policy.Decision> {
    Policy.Decide(Policy.ALL_RULES, intent, c.policy, ContextFor(now))
  }

  function Settle(s: State, r: nat, phase: Phase): State
    requires r < |s.requests|
  {
    s.(requests := s.requests[r := s.requests[r].(phase := phase)])
  }

  function Arrived(c: Config, s: State, route: Route, intent: Option<Intent>, key: Str, now: int): State {
    match intent
    case None => s
    case Some(i) =>
      if route != ToAuthorize && key == [] then s
      else match Judge(c, i, now)
        case None => s
        case Some(d) =>
          s.(requests := s.requests
             + [Request(route, i, key, now, d.verdict, if d.verdict == ALLOW then Simulating else Storing(d.verdict))])
  }

  function Returned(c: Config, s: State, r: nat, wouldRevert: Option<bool>): State {
    if !InPhase(s, r, Simulating) then s
    else match wouldRevert
      case None => Settle(s, r, Answered)
      case Some(reverts) =>
        Settle(s, r, Storing(if reverts then DENY else ALLOW))
        .(simulations := s.simulations + [Simulated(r, ToGuardCall(s.requests[r].intent, c.guard), reverts)])
  }

  /** The store has answered, well or badly; the verdict stands either way. */
  function AfterStore(c: Config, s: State, r: nat, holdId: Str, at: int): State {
    if !(r < |s.requests| && s.requests[r].phase.Storing?) then s
    else
      var q, done := s.requests[r], Settle(s, r, Answered);
      if q.route == ToExecute && q.phase.verdict == ALLOW then
        done.(broadcasts := s.broadcasts + [Broadcast(ToGuardCall(q.intent, c.guard), q.key, FromRequest(r))])
      else if q.route == ToHold && q.phase.verdict == HOLD then
        done.(holds := Created(s.holds, holdId, q.intent, q.key, at))
      else done
  }

  function AfterRelease(c: Config, s: State, id: Str, at: int): State {
    var t := s.(holds := Resolved(s.holds, id, Released, at));
    if Open(s.holds, id) then
      t.(broadcasts := s.broadcasts
         + [Broadcast(ToGuardCall(s.holds[id].intent, c.guard), s.holds[id].key, FromHold(id))])
    else t
  }

  function Apply(c: Config, s: State, e: Step): State {
    match e
    case Arrive(route, intent, key, now) => Arrived(c, s, route, intent, key, now)
    case Return(r, wouldRevert) => Returned(c, s, r, wouldRevert)
    case Stored(r, holdId, at) => AfterStore(c, s, r, holdId, at)
    case Release(id, at) => AfterRelease(c, s, id, at)
    case Cancel(id, at) => s.(holds := Resolved(s.holds, id, Cancelled, at))
  }

  // ---------------------------------------------------------------- handlers

  class App {
    const config: Config
    const ledger: HoldLedger
    var requests: seq<Request>
    var simulations: seq<Simulated>
    var broadcasts: seq<Broadcast>

    ghost function Value(): State
      reads this, ledger
    {
      State(requests, simulations, ledger.records, broadcasts)
    }

    constructor (config: Config)
      ensures this.config == config && fresh(ledger) && Value() == START
    {
      this.config := config;
      ledger := new HoldLedger();
      requests, simulations, broadcasts := [], [], [];
    }

    /** Up to the first await of any of the three posts. */
    method Begin(route: Route, intent: Option<Intent>, key: Str, now: int)
      modifies this
      ensures Value() == Apply(config, old(Value()), Arrive(route, intent, key, now))
    {
      if intent.None? { return; }
      if route != ToAuthorize && key == [] { return; }
      var decision := Policy.Evaluate(intent.value, config.policy, ContextFor(now), Policy.ALL_RULES);
      match decision
      case None => return;
      case Some(d) =>
        var phase := if d.verdict == ALLOW then Simulating else Storing(d.verdict);
        requests := requests + [Request(route, intent.value, key, now, d.verdict, phase)];
    }

    method SimulationReturned(r: nat, wouldRevert: Option<bool>)
      requires r < |requests| && requests[r].phase == Simulating
      modifies this
      ensures Value() == Apply(config, old(Value()), Return(r, wouldRevert))
    {
      var q := requests[r];
      match wouldRevert
      case None => requests := requests[r := q.(phase := Answered)];
      case Some(reverts) =>
        simulations := simulations + [Simulated(r, ToGuardCall(q.intent, config.guard), reverts)];
        requests := requests[r := q.(phase := Storing(if reverts then DENY else ALLOW))];
    }

    method ReceiptStored(r: nat, holdId: Str, at: int)
      requires r < |requests| && requests[r].phase.Storing?
      modifies this, ledger
      ensures Value() == Apply(config, old(Value()), Stored(r, holdId, at))
    {
      var q := requests[r];
      requests := requests[r := q.(phase := Answered)];
      if q.route == ToExecute && q.phase.verdict == ALLOW {
        broadcasts := broadcasts + [Broadcast(ToGuardCall(q.intent, config.guard), q.key, FromRequest(r))];
      } else if q.route == ToHold && q.phase.verdict == HOLD {
        var _ := ledger.Create(holdId, q.intent, q.key, at);
      }
    }

    method ReleaseHold(id: Str, at: int) returns (found: bool)
      modifies this, ledger
      ensures Value() == Apply(config, old(Value()), Release(id, at))
      ensures found <==> Open(old(Value()).holds, id)
    {
      var record := ledger.Resolve(id, Released, at);
      match record
      case None => return false;
      case Some(h) =>
        broadcasts := broadcasts + [Broadcast(ToGuardCall(h.intent, config.guard), h.key, FromHold(id))];
        return true;
    }

    method CancelHold(id: Str, at: int) returns (found: bool)
      modifies ledger
      ensures Value() == Apply(config, old(Value()), Cancel(id, at))
      ensures found <==> Open(old(Value()).holds, id)
    {
      var record := ledger.Resolve(id, Cancelled, at);
      found := record.Some?;
    }
  }

  // ------------------------------------------------------------------ runs

  function Run(c: Config, es: seq<Step>): State {
    if es == [] then START else Apply(c, Run(c, es[..|es| - 1]), es[|es| - 1])
  }

  /** A section that creates a hold draws an id not drawn before. */
  ghost predicate FreshId(s: State, e: Step) { e.Stored? ==> e.holdId !in s.holds }

  ghost predicate FreshIds(c: Config, es: seq<Step>) {
    forall n :: 0 <= n < |es| ==> FreshId(Run(c, es[..n]), es[n])
  }

  // --------------------------------------------------- why a broadcast happened

  /** The request was allowed by the rules, and its own guard call came back from simulation without
      a revert. */
  ghost predicate Cleared(c: Config, s: State, r: nat) {
    && r < |s.requests| && s.requests[r].first == ALLOW
    && Simulated(r, ToGuardCall(s.requests[r].intent, c.guard), false) in s.simulations
  }

  /** The hold was created for a request that the rules had put on hold. */
  ghost predicate Escalated(s: State, h: HoldRecord, r: nat) {
    && r < |s.requests|
    && var q := s.requests[r];
    q.route == ToHold && q.first == HOLD && q.intent == h.intent && q.key == h.key
  }

  ghost predicate Justified(c: Config, s: State, b: Broadcast) {
    match b.origin
    case FromRequest(r) =>
      && Cleared(c, s, r) && s.requests[r].route == ToExecute && s.requests[r].phase == Answered
      && b.call == ToGuardCall(s.requests[r].intent, c.guard) && b.key == s.requests[r].key
    case FromHold(id) =>
      && id in s.holds && s.holds[id].status == Released
      && b.call == ToGuardCall(s.holds[id].intent, c.guard) && b.key == s.holds[id].key
  }

  ghost predicate PhaseSound(c: Config, s: State, r: nat)
    requires r < |s.requests|
  {
    var q := s.requests[r];
    match q.phase
    case Simulating => q.first == ALLOW
    case Storing(v) => if v == ALLOW then Cleared(c, s, r) else v == HOLD ==> q.first == HOLD
    case Answered => true
  }

  /** Judged when it arrived, and with an idempotency key if it is to be sent. */
  ghost predicate Judged(c: Config, q: Request) {
    && Judge(c, q.intent, q.now).Some? && Judge(c, q.intent, q.now).value.verdict == q.first
    && (q.route != ToAuthorize ==> q.key != [])
  }

  ghost predicate HoldSound(s: State, id: Str)
    requires id in s.holds
  {
    exists r :: Escalated(s, s.holds[id], r)
  }

  /** No two broadcasts come from the same request or hold. */
  ghost predicate OriginsApart(bs: seq<Broadcast>) {
    forall n, m :: 0 <= n < m < |bs| ==> bs[n].origin != bs[m].origin
  }

  ghost predicate NewOrigin(bs: seq<Broadcast>, origin: Origin) { forall n :: 0 <= n < |bs| ==> bs[n].origin != origin }

  ghost predicate Sound(c: Config, s: State) {
    && (forall r :: 0 <= r < |s.requests| ==> Judged(c, s.requests[r]) && PhaseSound(c, s, r))
    && (forall id :: id in s.holds ==> HoldSound(s, id))
    && (forall n :: 0 <= n < |s.broadcasts| ==> Justified(c, s, s.broadcasts[n]))
    && OriginsApart(s.broadcasts)
  }

  // ----------------------------------------------------------- what steps keep

  /** Requests keep all but their phase and are never unanswered again; simulations are kept. */
  ghost predicate Grows(s: State, t: State) {
    && |s.requests| <= |t.requests|
    && (forall r :: 0 <= r < |s.requests| ==>
          t.requests[r].(phase := Answered) == s.requests[r].(phase := Answered)
          && (s.requests[r].phase == Answered ==> t.requests[r].phase == Answered))
    && (forall m :: m in s.simulations ==> m in t.simulations)
  }

  lemma SameGrows(s: State, t: State)
    requires t.requests == s.requests && t.simulations == s.simulations
    ensures Grows(s, t)
  {
  }

  lemma JustifiedStays(c: Config, s: State, t: State, b: Broadcast)
    requires Grows(s, t) && Justified(c, s, b)
    requires b.origin.FromHold? ==> b.origin.id in t.holds && t.holds[b.origin.id] == s.holds[b.origin.id]
    ensures Justified(c, t, b)
  {
    match b.origin
    case FromRequest(r) => assert t.requests[r].(phase := Answered) == s.requests[r].(phase := Answered);
    case FromHold(id) =>
  }

  lemma AllJustified(c: Config, s: State, t: State)
    requires Grows(s, t) && s.broadcasts <= t.broadcasts
    requires forall n :: 0 <= n < |s.broadcasts| ==> Justified(c, s, s.broadcasts[n])
    requires forall id :: id in s.holds && s.holds[id].status == Released ==>
      id in t.holds && t.holds[id] == s.holds[id]
    ensures forall n :: 0 <= n < |s.broadcasts| ==> Justified(c, t, t.broadcasts[n])
  {
    forall n | 0 <= n < |s.broadcasts| ensures Justified(c, t, t.broadcasts[n]) {
      assert Justified(c, s, s.broadcasts[n]);
      JustifiedStays(c, s, t, s.broadcasts[n]);
    }
  }

  lemma EscalatedStays(s: State, t: State, h: HoldRecord, k: HoldRecord, r: nat)
    requires Grows(s, t) && Escalated(s, h, r) && k.intent == h.intent && k.key == h.key
    ensures Escalated(t, k, r)
  {
    assert t.requests[r].(phase := Answered) == s.requests[r].(phase := Answered);
  }

  lemma PhaseStays(c: Config, s: State, t: State, r: nat)
    requires Grows(s, t) && r < |s.requests| && Judged(c, s.requests[r]) && PhaseSound(c, s, r)
    requires t.requests[r].phase == s.requests[r].phase
    ensures Judged(c, t.requests[r]) && PhaseSound(c, t, r)
  {
    assert t.requests[r].(phase := Answered) == s.requests[r].(phase := Answered);
    assert t.requests[r] == s.requests[r];
  }

  lemma SameRequests(c: Config, s: State, t: State)
    requires t.requests == s.requests && t.simulations == s.simulations
    requires forall r :: 0 <= r < |s.requests| ==> Judged(c, s.requests[r]) && PhaseSound(c, s, r)
    ensures forall r :: 0 <= r < |t.requests| ==> Judged(c, t.requests[r]) && PhaseSound(c, t, r)
  {
    forall r | 0 <= r < |t.requests| ensures Judged(c, t.requests[r]) && PhaseSound(c, t, r) { PhaseStays(c, s, t, r); }
  }

  lemma HoldsStay(s: State, t: State)
    requires Grows(s, t) && forall id :: id in s.holds ==> HoldSound(s, id)
    requires t.holds == s.holds
    ensures forall id :: id in t.holds ==> HoldSound(t, id)
  {
    forall id | id in t.holds ensures HoldSound(t, id) {
      assert HoldSound(s, id);
      var r: nat :| Escalated(s, s.holds[id], r);
      EscalatedStays(s, t, s.holds[id], t.holds[id], r);
    }
  }

  lemma ArriveKeeps(c: Config, s: State, route: Route, intent: Option<Intent>, key: Str, now: int)
    requires Sound(c, s)
    ensures Sound(c, Arrived(c, s, route, intent, key, now)) && Grows(s, Arrived(c, s, route, intent, key, now))
  {
    var t := Arrived(c, s, route, intent, key, now);
    if t != s {
      HoldsStay(s, t);
      forall r | 0 <= r < |t.requests| ensures Judged(c, t.requests[r]) && PhaseSound(c, t, r) {
        if r < |s.requests| { PhaseStays(c, s, t, r); }
      }
      AllJustified(c, s, t);
    }
  }

  lemma MoveGrows(s: State, t: State, r: nat, phase: Phase)
    requires r < |s.requests| && t.requests == s.requests[r := s.requests[r].(phase := phase)]
    requires s.requests[r].phase == Answered ==> phase == Answered
    requires forall m :: m in s.simulations ==> m in t.simulations
    ensures Grows(s, t)
  {
  }

  /** One request moves on to a sound phase; simulations may be added. */
  lemma MoveKeeps(c: Config, s: State, t: State, r: nat, phase: Phase)
    requires Sound(c, s) && r < |s.requests| && t.requests == s.requests[r := s.requests[r].(phase := phase)]
    requires s.requests[r].phase == Answered ==> phase == Answered
    requires forall m :: m in s.simulations ==> m in t.simulations
    requires t.holds == s.holds && t.broadcasts == s.broadcasts && PhaseSound(c, t, r)
    ensures Sound(c, t) && Grows(s, t)
  {
    MoveGrows(s, t, r, phase);
    HoldsStay(s, t);
    AllJustified(c, s, t);
    forall k | 0 <= k < |t.requests| ensures Judged(c, t.requests[k]) && PhaseSound(c, t, k) {
      if k != r { PhaseStays(c, s, t, k); } else { assert Judged(c, s.requests[r]); }
    }
  }

  lemma ReturnKeeps(c: Config, s: State, r: nat, wouldRevert: Option<bool>)
    requires Sound(c, s)
    ensures Sound(c, Returned(c, s, r, wouldRevert)) && Grows(s, Returned(c, s, r, wouldRevert))
  {
    var t := Returned(c, s, r, wouldRevert);
    if InPhase(s, r, Simulating) {
      assert PhaseSound(c, s, r);
      MoveKeeps(c, s, t, r, t.requests[r].phase);
    }
  }

  /** Answering a request without more. */
  lemma AnswerKeeps(c: Config, s: State, r: nat)
    requires Sound(c, s) && r < |s.requests|
    ensures Sound(c, Settle(s, r, Answered)) && Grows(s, Settle(s, r, Answered))
  {
    MoveKeeps(c, s, Settle(s, r, Answered), r, Answered);
  }

  lemma OriginAdded(bs: seq<Broadcast>, b: Broadcast)
    requires OriginsApart(bs) && NewOrigin(bs, b.origin)
    ensures OriginsApart(bs + [b])
  {
  }

  lemma JustifiedSnoc(c: Config, t: State, bs: seq<Broadcast>, b: Broadcast)
    requires Justified(c, t, b) && forall n :: 0 <= n < |bs| ==> Justified(c, t, bs[n])
    ensures forall n :: 0 <= n < |bs + [b]| ==> Justified(c, t, (bs + [b])[n])
  {
  }

  lemma SameJustified(c: Config, s: State, t: State, b: Broadcast)
    requires t == s.(broadcasts := s.broadcasts + [b]) && Justified(c, s, b)
    requires forall n :: 0 <= n < |s.broadcasts| ==> Justified(c, s, s.broadcasts[n])
    ensures Justified(c, t, b) && forall n :: 0 <= n < |s.broadcasts| ==> Justified(c, t, s.broadcasts[n])
  {
    SameGrows(s, t);
    JustifiedStays(c, s, t, b);
    AllJustified(c, s, t);
  }

  lemma BroadcastKeeps(c: Config, s: State, b: Broadcast)
    requires Sound(c, s) && Justified(c, s, b) && NewOrigin(s.broadcasts, b.origin)
    ensures Sound(c, s.(broadcasts := s.broadcasts + [b]))
  {
    var t := s.(broadcasts := s.broadcasts + [b]);
    SameGrows(s, t);
    HoldsStay(s, t);
    SameRequests(c, s, t);
    SameJustified(c, s, t, b);
    JustifiedSnoc(c, t, s.broadcasts, b);
    OriginAdded(s.broadcasts, b);
  }

  lemma HoldChanges(s: State, t: State, id: Str, h: HoldRecord, r: nat)
    requires Escalated(s, h, r) && forall i :: i in s.holds ==> HoldSound(s, i)
    requires t == s.(holds := s.holds[id := h])
    ensures forall i :: i in t.holds ==> HoldSound(t, i)
  {
    forall i | i in t.holds ensures HoldSound(t, i) {
      if i == id {
        EscalatedStays(s, t, h, h, r);
      } else {
        assert HoldSound(s, i);
        var k: nat :| Escalated(s, s.holds[i], k);
        EscalatedStays(s, t, s.holds[i], t.holds[i], k);
      }
    }
  }

  /** Changing one hold that no broadcast has come from. */
  lemma HoldKeeps(c: Config, s: State, id: Str, h: HoldRecord, r: nat)
    requires Sound(c, s) && Escalated(s, h, r)
    requires id !in s.holds || s.holds[id].status != Released
    ensures Sound(c, s.(holds := s.holds[id := h]))
  {
    var t := s.(holds := s.holds[id := h]);
    SameRequests(c, s, t);
    AllJustified(c, s, t);
    HoldChanges(s, t, id, h, r);
  }

  lemma StoreKeeps(c: Config, s: State, r: nat, holdId: Str, at: int)
    requires Sound(c, s) && holdId !in s.holds
    ensures Sound(c, AfterStore(c, s, r, holdId, at)) && Grows(s, AfterStore(c, s, r, holdId, at))
  {
    if r < |s.requests| && s.requests[r].phase.Storing? {
      var q, done := s.requests[r], Settle(s, r, Answered);
      AnswerKeeps(c, s, r);
      assert PhaseSound(c, s, r);
      if q.route == ToExecute && q.phase.verdict == ALLOW {
        forall n | 0 <= n < |s.broadcasts| ensures s.broadcasts[n].origin != FromRequest(r) {
          assert Justified(c, s, s.broadcasts[n]);
        }
        BroadcastKeeps(c, done, Broadcast(ToGuardCall(q.intent, c.guard), q.key, FromRequest(r)));
      } else if q.route == ToHold && q.phase.verdict == HOLD {
        HoldKeeps(c, done, holdId, HoldRecord(q.intent, q.key, Held, at, None), r);
      }
    }
  }

  lemma ReleaseKeeps(c: Config, s: State, id: Str, at: int)
    requires Sound(c, s)
    ensures Sound(c, AfterRelease(c, s, id, at)) && Grows(s, AfterRelease(c, s, id, at))
  {
    if Open(s.holds, id) {
      assert HoldSound(s, id);
      var r: nat :| Escalated(s, s.holds[id], r);
      var h := s.holds[id].(status := Released, resolvedAt := Some(at));
      HoldKeeps(c, s, id, h, r);
      forall n | 0 <= n < |s.broadcasts| ensures s.broadcasts[n].origin != FromHold(id) {
        assert Justified(c, s, s.broadcasts[n]);
      }
      BroadcastKeeps(c, s.(holds := s.holds[id := h]), Broadcast(ToGuardCall(h.intent, c.guard), h.key, FromHold(id)));
    }
  }

  lemma CancelKeeps(c: Config, s: State, id: Str, at: int)
    requires Sound(c, s)
    ensures Sound(c, Apply(c, s, Cancel(id, at))) && Grows(s, Apply(c, s, Cancel(id, at)))
  {
    if Open(s.holds, id) {
      assert HoldSound(s, id);
      var r: nat :| Escalated(s, s.holds[id], r);
      HoldKeeps(c, s, id, s.holds[id].(status := Cancelled, resolvedAt := Some(at)), r);
    }
  }

  lemma StepKeeps(c: Config, s: State, e: Step)
    requires Sound(c, s) && FreshId(s, e)
    ensures Sound(c, Apply(c, s, e)) && Grows(s, Apply(c, s, e))
  {
    match e
    case Arrive(route, intent, key, now) => ArriveKeeps(c, s, route, intent, key, now);
    case Return(r, wouldRevert) => ReturnKeeps(c, s, r, wouldRevert);
    case Stored(r, holdId, at) => StoreKeeps(c, s, r, holdId, at);
    case Release(id, at) => ReleaseKeeps(c, s, id, at);
    case Cancel(id, at) => CancelKeeps(c, s, id, at);
  }

  lemma FreshPrefix(c: Config, es: seq<Step>)
    requires FreshIds(c, es) && es != []
    ensures FreshIds(c, es[..|es| - 1]) && FreshId(Run(c, es[..|es| - 1]), es[|es| - 1])
  {
    var init := es[..|es| - 1];
    forall n | 0 <= n < |init| ensures FreshId(Run(c, init[..n]), init[n]) {
      assert init[..n] == es[..n];
    }
  }

  lemma {:induction false} RunSound(c: Config, es: seq<Step>)
    requires FreshIds(c, es)
    ensures Sound(c, Run(c, es))
  {
    if es != [] {
      FreshPrefix(c, es);
      RunSound(c, es[..|es| - 1]);
      StepKeeps(c, Run(c, es[..|es| - 1]), es[|es| - 1]);
    }
  }

  // -------------------------------------------------------------- main results

  /** In every interleaving each broadcast is the call of an execute request that the rules allowed
      and whose simulation came back clean, under that request's key, or the stored intent and key
      of a hold released since, made for a request that the rules had put on hold. The key is never
      empty. */
  lemma BroadcastsJustified(c: Config, es: seq<Step>, n: nat)
    requires FreshIds(c, es) && n < |Run(c, es).broadcasts|
    ensures var s := Run(c, es);
      && Justified(c, s, s.broadcasts[n]) && s.broadcasts[n].key != []
      && (s.broadcasts[n].origin.FromHold? ==> exists r :: Escalated(s, s.holds[s.broadcasts[n].origin.id], r))
  {
    RunSound(c, es);
    var s := Run(c, es);
    assert Justified(c, s, s.broadcasts[n]);
    match s.broadcasts[n].origin
    case FromHold(id) =>
      assert HoldSound(s, id);
      var r: nat :| Escalated(s, s.holds[id], r);
      assert Judged(c, s.requests[r]);
    case FromRequest(r) => assert Judged(c, s.requests[r]);
  }

  /** A post is taken up exactly if its intent parses, it has a key unless it only asks for a verdict,
      and no approval amount is unreadable; otherwise nothing changes. What is taken up is what came,
      and only an ALLOW goes to simulation. */
  lemma ArrivalExactly(c: Config, s: State, route: Route, intent: Option<Intent>, key: Str, now: int)
    ensures var t := Apply(c, s, Arrive(route, intent, key, now));
      if intent.Some? && (route == ToAuthorize || key != []) && Policy.ApprovalsReadable(intent.value) then
        exists q :: t == s.(requests := s.requests + [q])
          && q.route == route && q.intent == intent.value && q.key == key && q.now == now && Judged(c, q)
          && q.phase == if q.first == ALLOW then Simulating else Storing(q.first)
      else t == s
  {
    if intent.Some? { Policy.VerdictMeans(intent.value, c.policy, ContextFor(now)); }
    var t := Apply(c, s, Arrive(route, intent, key, now));
    if |t.requests| > |s.requests| { assert t == s.(requests := s.requests + [t.requests[|s.requests|]]); }
  }

  /** The call that this step sends, if it sends one. */
  function Sends(c: Config, s: State, e: Step): seq<Broadcast> {
    match e
    case Stored(r, _, _) =>
      if InPhase(s, r, Storing(ALLOW)) && s.requests[r].route == ToExecute
      then [Broadcast(ToGuardCall(s.requests[r].intent, c.guard), s.requests[r].key, FromRequest(r))] else []
    case Release(id, _) =>
      if id in s.holds && s.holds[id].status == Held
      then [Broadcast(ToGuardCall(s.holds[id].intent, c.guard), s.holds[id].key, FromHold(id))] else []
    case _ => []
  }

  /** A step sends exactly on storing the receipt of an execution still allowed and on releasing a
      waiting hold, and what is sent stays sent. */
  lemma BroadcastsExactly(c: Config, s: State, e: Step)
    ensures Apply(c, s, e).broadcasts == s.broadcasts + Sends(c, s, e)
  {
    assert s.broadcasts + [] == s.broadcasts;
  }

  /** The verdict after simulation: a predicted revert denies, a clean run leaves the ALLOW, and a
      simulation that throws answers the request; no other request is affected. */
  lemma SimulationDecides(c: Config, s: State, r: nat, wouldRevert: Option<bool>)
    requires InPhase(s, r, Simulating)
    ensures var t := Apply(c, s, Return(r, wouldRevert));
      && |t.requests| == |s.requests| && t.holds == s.holds
      && (forall q :: 0 <= q < |s.requests| && q != r ==> t.requests[q] == s.requests[q])
      && t.requests[r].phase ==
           match wouldRevert
           case None => Answered
           case Some(true) => Storing(DENY)
           case Some(false) => Storing(ALLOW)
  {
  }

  /** The holds after a step: created when the receipt of a HOLD on the hold route is stored, and
      resolved at most once. */
  lemma HoldsExactly(c: Config, s: State, e: Step, id: Str)
    ensures var t := Apply(c, s, e);
      match e
      case Stored(r, holdId, at) =>
        if InPhase(s, r, Storing(HOLD)) && s.requests[r].route == ToHold && id == holdId then
          id in t.holds && t.holds[id] == HoldRecord(s.requests[r].intent, s.requests[r].key, Held, at, None)
        else (id in t.holds <==> id in s.holds) && (id in s.holds ==> t.holds[id] == s.holds[id])
      case _ =>
        && (id in t.holds <==> id in s.holds)
        && (id in s.holds ==>
              var h := s.holds[id];
              t.holds[id] ==
              if e.Release? && e.holdId == id && h.status == Held then h.(status := Released, resolvedAt := Some(e.at))
              else if e.Cancel? && e.holdId == id && h.status == Held
              then h.(status := Cancelled, resolvedAt := Some(e.at)) else h)
  {
  }

  /** At most one broadcast per request and per hold, and none for a hold that is still waiting or
      was cancelled. */
  lemma AtMostOnce(c: Config, es: seq<Step>, n: nat, m: nat)
    requires FreshIds(c, es) && n < |Run(c, es).broadcasts| && m < |Run(c, es).broadcasts|
    ensures var s := Run(c, es);
      && (s.broadcasts[n].origin == s.broadcasts[m].origin ==> n == m)
      && (s.broadcasts[n].origin.FromHold? ==>
            s.broadcasts[n].origin.id in s.holds && s.holds[s.broadcasts[n].origin.id].status == Released)
  {
    RunSound(c, es);
    var s := Run(c, es);
    assert Justified(c, s, s.broadcasts[n]);
    assert n < m ==> s.broadcasts[n].origin != s.broadcasts[m].origin;
    assert m < n ==> s.broadcasts[m].origin != s.broadcasts[n].origin;
  }

  /** Every broadcast, whichever way it came about, is the call of an intent that kept the hard
      limits as enforced when it was judged. It kept all hard limits if the lists of selectors reach
      every spelling of their addresses; in any case it broke none but that on selectors. */
  lemma NothingForbiddenIsSent(c: Config, es: seq<Step>, n: nat)
    requires FreshIds(c, es) && n < |Run(c, es).broadcasts|
    ensures exists r: nat :: SentFor(c, Run(c, es), n, r)
  {
    RunSound(c, es);
    BroadcastsJustified(c, es, n);
    var s := Run(c, es);
    var r: nat :| r < |s.requests| && s.broadcasts[n].call == ToGuardCall(s.requests[r].intent, c.guard)
      && s.requests[r].first != DENY;
    assert Judged(c, s.requests[r]);
    var i, context := s.requests[r].intent, ContextFor(s.requests[r].now);
    Policy.VerdictMeans(i, c.policy, context);
    if Policy.ListsReach(c.policy.targets) { Policy.LimitsKept(i, c.policy, context); }
    assert SentFor(c, s, n, r);
  }

  /** Broadcast n is the call of request r, which the policy let through when it was judged. */
  ghost predicate SentFor(c: Config, s: State, n: nat, r: nat) {
    && n < |s.broadcasts| && r < |s.requests|
    && var i, context := s.requests[r].intent, ContextFor(s.requests[r].now);
    && s.broadcasts[n].call == ToGuardCall(i, c.guard)
    && Policy.Enforced(i, c.policy, context)
    && (Policy.ListsReach(c.policy.targets) ==> Policy.Permitted(i, c.policy, context))
  }

  lemma RunOfThree(c: Config, a: Step, b: Step, d: Step)
    ensures Run(c, [a, b, d]) == Apply(c, Apply(c, Apply(c, START, a), b), d)
  {
    assert [a, b, d][..2] == [a, b] && [a, b][..1] == [a];
    assert Run(c, [a]) == Apply(c, START, a) by { assert [a][..0] == []; }
    assert Run(c, [a, b]) == Apply(c, Run(c, [a]), b);
  }

  /** An intent that the rules allow and whose simulation comes back clean is broadcast. */
  lemma AllowedIsSent(c: Config, i: Intent, key: Str, now: int, at: int)
    requires key != [] && Judge(c, i, now).Some? && Judge(c, i, now).value.verdict == ALLOW
    ensures Run(c, [Arrive(ToExecute, Some(i), key, now), Return(0, Some(false)), Stored(0, [], at)]).broadcasts
         == [Broadcast(ToGuardCall(i, c.guard), key, FromRequest(0))]
  {
    RunOfThree(c, Arrive(ToExecute, Some(i), key, now), Return(0, Some(false)), Stored(0, [], at));
    var s := Arrived(c, START, ToExecute, Some(i), key, now);
    assert s == State([Request(ToExecute, i, key, now, ALLOW, Simulating)], [], map[], []);
    var t := Returned(c, s, 0, Some(false));
    assert t.requests == [Request(ToExecute, i, key, now, ALLOW, Storing(ALLOW))] && t.broadcasts == [];
  }

  /** A list under a mixed-case key is got around: an intent that keeps the other limits and calls
      forbidden functions of the address in lower case is broadcast, if no human need look at it
      and its simulation comes back clean. */
  lemma UnreachedListIsSent(c: Config, i: Intent, key: Str, list: Str, now: int, at: int)
    requires key != []
    requires Policy.WithinLimits(i, c.policy, ContextFor(now)) && Policy.ApprovalsReadable(i) && i.calls != []
    requires Policy.Routine(i, c.policy, ContextFor(now))
    requires list in c.policy.targets.selectors && list != Lower(list)
    requires forall k :: k in c.policy.targets.selectors && Lower(k) == Lower(list) ==> k == list
    requires forall call :: call in i.calls ==>
      call.target == Lower(list) && !Policy.Admits(c.policy.targets.selectors[list], call.data)
    ensures var s := Run(c, [Arrive(ToExecute, Some(i), key, now), Return(0, Some(false)), Stored(0, [], at)]);
      s.broadcasts == [Broadcast(ToGuardCall(i, c.guard), key, FromRequest(0))]
    ensures !Policy.Permitted(i, c.policy, ContextFor(now))
  {
    Policy.OtherSpellingNotDenied(i, c.policy, ContextFor(now), list);
    AllowedIsSent(c, i, key, now, at);
  }

  /** Under a policy that holds on unknown counterparties, whatever makes a call is broadcast only
      when a human releases it: the gateway knows nobody. */
  lemma OnlyHumansRelease(c: Config, es: seq<Step>, n: nat)
    requires FreshIds(c, es) && n < |Run(c, es).broadcasts| && c.policy.holdAbove.unknownCounterparty
    ensures var s := Run(c, es);
      match s.broadcasts[n].origin
      case FromHold(_) => true
      case FromRequest(r) => r < |s.requests| && s.requests[r].intent.calls == []
  {
    RunSound(c, es);
    var s := Run(c, es);
    var b := s.broadcasts[n];
    assert Justified(c, s, b);
    if b.origin.FromRequest? {
      var q := s.requests[b.origin.request];
      assert Judged(c, q);
      Policy.VerdictMeans(q.intent, c.policy, ContextFor(q.now));
      if q.intent.calls != [] { Policy.FreshContextNeverAllows(q.intent, c.policy, q.now); }
    }
  }

  lemma StepKeepsResolved(c: Config, s: State, e: Step, id: Str)
    requires FreshId(s, e) && id in s.holds && s.holds[id].status != Held
    ensures id in Apply(c, s, e).holds && Apply(c, s, e).holds[id] == s.holds[id]
  {
  }

  /** A hold resolved after the first n steps never changes again. */
  lemma {:induction false} ResolvedHoldsStay(c: Config, es: seq<Step>, n: nat, id: Str)
    requires FreshIds(c, es) && n <= |es|
    requires id in Run(c, es[..n]).holds && Run(c, es[..n]).holds[id].status != Held
    ensures id in Run(c, es).holds && Run(c, es).holds[id] == Run(c, es[..n]).holds[id]
  {
    if n == |es| {
      assert es[..n] == es;
    } else {
      var init := es[..|es| - 1];
      assert init[..n] == es[..n];
      FreshPrefix(c, es);
      ResolvedHoldsStay(c, init, n, id);
      StepKeepsResolved(c, Run(c, init), es[|es| - 1], id);
    }
  }

  /** Freshness is needed: if the ledger draws an id again, a released hold is replaced, and the same
      hold id is broadcast a second time. */
  lemma ReusedIdBroadcastsTwice(c: Config, s: State, i: Intent, key: Str, id: Str, now: int, at: int)
    requires Sound(c, s) && Open(s.holds, id) && key != []
    requires Judge(c, i, now).Some? && Judge(c, i, now).value.verdict == HOLD
    ensures var r := |s.requests|;
      var t := Apply(c, Apply(c, Apply(c, Apply(c, s,
        Release(id, at)), Arrive(ToHold, Some(i), key, now)), Stored(r, id, at)), Release(id, at));
      var n := |s.broadcasts|;
      |t.broadcasts| == n + 2 && t.broadcasts[n].origin == t.broadcasts[n + 1].origin
  {
  }
}
