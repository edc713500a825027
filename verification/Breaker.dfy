/** The circuit breaker: a three-state machine over an injected clock.
    A value-level specification (`After`) of every method, the class that implements it, and what
    holds of every run. Times are the readings of the clock; a run is a sequence of events with
    non-decreasing readings. */
module Breaker {

  datatype State = Closed | Open | HalfOpen

  datatype Config = Config(failureThreshold: int, cooldownMs: int, successThreshold: int)

  /** The fields, and the state changes reported to the callback so far. */
  datatype Circuit = Circuit(state: State, failures: int, successes: int, openedAt: int, log: seq<(State, State)>)

  const INITIAL := Circuit(Closed, 0, 0, 0, [])

  /** The calls that can reach a breaker. `Check` is any read that applies the cooldown: allows,
      assertAllowed, current, code, retryAfterMs. The record calls read the clock for the cooldown
      check (`at`) and again if they open or close the circuit (`later`). */
  datatype Event =
    | Check(at: int)
    | Success(at: int, later: int)
    | Failure(at: int, later: int)
    | Reset(at: int)

  // --------------------------------------------------------- specification

  function Transition(b: Circuit, to: State, now: int): Circuit {
    if b.state == to then b
    else Circuit(to,
           if to == Closed then 0 else b.failures,
           if to != HalfOpen then 0 else b.successes,
           if to == Open then now else b.openedAt,
           b.log + [(b.state, to)])
  }

  function Cooled(c: Config, b: Circuit, now: int): Circuit {
    if b.state == Open && now - b.openedAt >= c.cooldownMs then Transition(b, HalfOpen, now) else b
  }

  function After(c: Config, b: Circuit, e: Event): Circuit {
    match e
    case Check(now) => Cooled(c, b, now)
    case Success(now, later) =>
      var d := Cooled(c, b, now);
      if d.state == HalfOpen then
        var n := d.(successes := d.successes + 1);
        if n.successes >= c.successThreshold then Transition(n, Closed, later) else n
      else d.(failures := 0)
    case Failure(now, later) =>
      var d := Cooled(c, b, now);
      var n := d.(failures := d.failures + 1);
      if d.state == HalfOpen then Transition(n, Open, later)
      else if n.failures >= c.failureThreshold then Transition(n, Open, later)
      else n
    case Reset(now) => Transition(b.(failures := 0, successes := 0), Closed, now)
  }

  /** What retryAfterMs returns after reading the clock at `now` and again at `later`. */
  function Wait(c: Config, b: Circuit, now: int, later: int): int {
    var d := Cooled(c, b, now);
    if d.state != Open then 0
    else if d.openedAt + c.cooldownMs > later then d.openedAt + c.cooldownMs - later
    else 0
  }

  // ----------------------------------------------------------------- class

  /** Each method takes the clock readings it makes, in order. */
  class CircuitBreaker {
    const config: Config
    var state: State
    var failures: int
    var successes: int
    var openedAt: int
    ghost var log: seq<(State, State)>

    ghost function Value(): Circuit
      reads this
    {
      Circuit(state, failures, successes, openedAt, log)
    }

    constructor (config: Config)
      ensures this.config == config && Value() == INITIAL
    {
      this.config := config;
      state, failures, successes, openedAt, log := Closed, 0, 0, 0, [];
    }

    method TransitionTo(to: State, now: int)
      modifies this
      ensures Value() == Transition(old(Value()), to, now)
    {
      if state == to { return; }
      var from := state;
      state := to;
      if to == Open { openedAt := now; }
      if to != HalfOpen { successes := 0; }
      if to == Closed { failures := 0; }
      log := log + [(from, to)];
    }

    method MaybeHalfOpen(now: int)
      modifies this
      ensures Value() == Cooled(config, old(Value()), now)
    {
      if state != Open { return; }
      if now - openedAt >= config.cooldownMs { TransitionTo(HalfOpen, now); }
    }

    method Allows(now: int) returns (allowed: bool)
      modifies this
      ensures Value() == After(config, old(Value()), Check(now))
      ensures allowed <==> Value().state != Open
    {
      MaybeHalfOpen(now);
      allowed := state != Open;
    }

    /** Two readings: one for the cooldown, one for the remaining wait. */
    method RetryAfterMs(now: int, later: int) returns (wait: int)
      modifies this
      ensures Value() == After(config, old(Value()), Check(now))
      ensures wait == Wait(config, old(Value()), now, later)
    {
      MaybeHalfOpen(now);
      if state != Open { return 0; }
      var left := openedAt + config.cooldownMs - later;
      wait := if left > 0 then left else 0;
    }

    /** The error carries the wait; it is absent when the call may proceed. */
    method AssertAllowed(now: int, again: int, later: int) returns (refused: bool, wait: int)
      modifies this
      ensures refused <==> After(config, old(Value()), Check(now)).state == Open
      ensures !refused ==> Value() == After(config, old(Value()), Check(now))
      ensures refused ==> Value() == After(config, After(config, old(Value()), Check(now)), Check(again))
      ensures refused ==> wait == Wait(config, After(config, old(Value()), Check(now)), again, later)
    {
      var allowed := Allows(now);
      if allowed { return false, 0; }
      wait := RetryAfterMs(again, later);
      refused := true;
    }

    method RecordSuccess(now: int, later: int)
      modifies this
      ensures Value() == After(config, old(Value()), Success(now, later))
    {
      MaybeHalfOpen(now);
      if state == HalfOpen {
        successes := successes + 1;
        if successes >= config.successThreshold { TransitionTo(Closed, later); }
        return;
      }
      failures := 0;
    }

    method RecordFailure(now: int, later: int)
      modifies this
      ensures Value() == After(config, old(Value()), Failure(now, later))
    {
      MaybeHalfOpen(now);
      if state == HalfOpen {
        failures := failures + 1;
        TransitionTo(Open, later);
        return;
      }
      failures := failures + 1;
      if failures >= config.failureThreshold { TransitionTo(Open, later); }
    }

    method ResetBreaker(now: int)
      modifies this
      ensures Value() == After(config, old(Value()), Reset(now))
    {
      failures := 0;
      successes := 0;
      TransitionTo(Closed, now);
    }
  }

  // ------------------------------------------------------------------ runs

  function Run(c: Config, b: Circuit, es: seq<Event>): Circuit {
    if es == [] then b else After(c, Run(c, b, es[..|es| - 1]), es[|es| - 1])
  }

  ghost predicate NoReset(es: seq<Event>) { forall i :: 0 <= i < |es| ==> !es[i].Reset? }

  lemma RunSnoc(c: Config, b: Circuit, es: seq<Event>, e: Event)
    ensures Run(c, b, es + [e]) == After(c, Run(c, b, es), e)
  {
    assert (es + [e])[..|es|] == es;
  }

  lemma {:induction false} RunConcat(c: Config, b: Circuit, es: seq<Event>, fs: seq<Event>)
    ensures Run(c, b, es + fs) == Run(c, Run(c, b, es), fs)
  {
    if fs == [] {
      assert es + fs == es;
    } else {
      var init := fs[..|fs| - 1];
      RunConcat(c, b, es, init);
      assert es + fs == (es + init) + [fs[|fs| - 1]];
      RunSnoc(c, b, es + init, fs[|fs| - 1]);
    }
  }

  // ---------------------------------------------- the counters mean the history

  /** Failures recorded since the last success or reset, read off the events alone. */
  ghost function TrailingFailures(es: seq<Event>): nat {
    if es == [] then 0
    else
      var init := es[..|es| - 1];
      match es[|es| - 1]
      case Check(_) => TrailingFailures(init)
      case Failure(_, _) => TrailingFailures(init) + 1
      case _ => 0
  }

  /** While closed, the counter is the trailing failure run of the history. */
  lemma {:induction false} ClosedCountsTrailingFailures(c: Config, es: seq<Event>)
    ensures var b := Run(c, INITIAL, es); b.state == Closed ==> b.failures == TrailingFailures(es)
  {
    if es != [] { ClosedCountsTrailingFailures(c, es[..|es| - 1]); }
  }

  /** A closed breaker leaves closed exactly at the failure that brings the trailing run to the
      threshold, and then it is open. */
  lemma OpensExactlyAtThreshold(c: Config, es: seq<Event>, e: Event)
    requires Run(c, INITIAL, es).state == Closed
    ensures var b := Run(c, INITIAL, es + [e]);
      && (b.state != Closed <==> e.Failure? && TrailingFailures(es) + 1 >= c.failureThreshold)
      && (b.state != Closed ==> b.state == Open && b.openedAt == e.later)
  {
    ClosedCountsTrailingFailures(c, es);
    RunSnoc(c, INITIAL, es, e);
  }

  /** At this reading the circuit is half-open, or open with its cooldown over. */
  predicate Probing(c: Config, b: Circuit, now: int) {
    b.state == HalfOpen || (b.state == Open && now >= b.openedAt + c.cooldownMs)
  }

  /** Consecutive successes recorded while half-open, up to the end of the history. */
  ghost function ProbeSuccesses(c: Config, es: seq<Event>): nat {
    if es == [] then 0
    else
      var init := es[..|es| - 1];
      match es[|es| - 1]
      case Check(_) => ProbeSuccesses(c, init)
      case Success(now, _) => if Probing(c, Run(c, INITIAL, init), now) then ProbeSuccesses(c, init) + 1 else 0
      case _ => 0
  }

  lemma {:induction false} HalfOpenCountsSuccesses(c: Config, es: seq<Event>)
    ensures var b := Run(c, INITIAL, es);
      && (b.state != HalfOpen ==> b.successes == 0)
      && (b.state == HalfOpen ==> b.successes == ProbeSuccesses(c, es))
      && (b.state == Open ==> ProbeSuccesses(c, es) == 0)
  {
    if es != [] {
      var init := es[..|es| - 1];
      HalfOpenCountsSuccesses(c, init);
    }
  }

  /** Without a reset a breaker that is not closed closes exactly at the half-open success that
      brings the run of consecutive half-open successes to the threshold. */
  lemma ClosesExactlyAfterProbes(c: Config, es: seq<Event>, e: Event)
    requires Run(c, INITIAL, es).state != Closed && !e.Reset?
    ensures Run(c, INITIAL, es + [e]).state == Closed <==>
      && e.Success? && Probing(c, Run(c, INITIAL, es), e.at)
      && ProbeSuccesses(c, es) + 1 >= c.successThreshold
  {
    HalfOpenCountsSuccesses(c, es);
    RunSnoc(c, INITIAL, es, e);
  }

  /** A failed probe opens the circuit again, from the moment it is recorded. */
  lemma FailedProbeReopens(c: Config, es: seq<Event>, e: Event)
    requires e.Failure? && Probing(c, Run(c, INITIAL, es), e.at)
    ensures var b := Run(c, INITIAL, es + [e]); b.state == Open && b.openedAt == e.later
  {
    RunSnoc(c, INITIAL, es, e);
  }

  /** The state after one more call, from the history alone: a reset closes; a failed probe opens, and
      so does the failure that completes the trailing run of a closed circuit; the success that
      completes the run of probes closes; any other probe, checks included, is half-open; and
      otherwise the state stays. The circuit dates from the call exactly if that call opens it. */
  lemma StepExactly(c: Config, es: seq<Event>, e: Event)
    ensures var b, b' := Run(c, INITIAL, es), Run(c, INITIAL, es + [e]);
      var opens := e.Failure?
        && (Probing(c, b, e.at) || (b.state == Closed && TrailingFailures(es) + 1 >= c.failureThreshold));
      var closes := e.Reset?
        || (e.Success? && Probing(c, b, e.at) && ProbeSuccesses(c, es) + 1 >= c.successThreshold);
      && b'.state == (if opens then Open else if closes then Closed
                      else if Probing(c, b, e.at) then HalfOpen else b.state)
      && b'.openedAt == (if opens then e.later else b.openedAt)
  {
    RunSnoc(c, INITIAL, es, e);
    ClosedCountsTrailingFailures(c, es);
    HalfOpenCountsSuccesses(c, es);
  }

  // ------------------------------------------------------ reported transitions

  predicate LegalEdge(from: State, to: State) {
    || (from == Closed && to == Open)
    || (from == Open && to == HalfOpen)
    || (from == HalfOpen && to == Open)
    || (from == HalfOpen && to == Closed)
    || (from == Open && to == Closed)
  }

  ghost predicate Chained(log: seq<(State, State)>, last: State) {
    && (log == [] ==> last == Closed)
    && (log != [] ==> log[0].0 == Closed && log[|log| - 1].1 == last)
    && (forall i :: 0 <= i < |log| ==> LegalEdge(log[i].0, log[i].1))
    && (forall i :: 0 <= i < |log| - 1 ==> log[i].1 == log[i + 1].0)
  }

  lemma TransitionChains(b: Circuit, to: State, now: int)
    requires Chained(b.log, b.state) && (b.state == to || LegalEdge(b.state, to))
    ensures Chained(Transition(b, to, now).log, Transition(b, to, now).state)
  {
  }

  lemma CooledChains(c: Config, b: Circuit, now: int)
    requires Chained(b.log, b.state)
    ensures Chained(Cooled(c, b, now).log, Cooled(c, b, now).state)
  {
    TransitionChains(b, if b.state == Open then HalfOpen else b.state, now);
  }

  /** The callbacks of a run form one path from closed to the current state along legal edges, and
      open to closed occurs only at a reset. */
  lemma {:induction false} CallbacksChain(c: Config, es: seq<Event>)
    ensures var b := Run(c, INITIAL, es); Chained(b.log, b.state)
    ensures NoReset(es) ==> (Open, Closed) !in Run(c, INITIAL, es).log
  {
    if es != [] {
      var init, e := es[..|es| - 1], es[|es| - 1];
      CallbacksChain(c, init);
      var b := Run(c, INITIAL, init);
      CooledChains(c, b, e.at);
      var d := Cooled(c, b, e.at);
      match e
      case Check(_) =>
      case Success(now, later) =>
        if d.state == HalfOpen { TransitionChains(d.(successes := d.successes + 1), Closed, later); }
      case Failure(now, later) => TransitionChains(d.(failures := d.failures + 1), Open, later);
      case Reset(now) => TransitionChains(b.(failures := 0, successes := 0), Closed, now);
    }
  }

  function Edge(from: State, to: State): seq<(State, State)> { if from == to then [] else [(from, to)] }

  /** One more call reports exactly the changes it makes: a reset the one to closed; any other call
      the end of a cooldown that it notices, and then the change that follows from it. */
  lemma CallbacksExactly(c: Config, es: seq<Event>, e: Event)
    ensures var b, b' := Run(c, INITIAL, es), Run(c, INITIAL, es + [e]);
      var noticed := if !e.Reset? && Probing(c, b, e.at) then HalfOpen else b.state;
      b'.log == b.log + Edge(b.state, noticed) + Edge(noticed, b'.state)
  {
    RunSnoc(c, INITIAL, es, e);
  }

  // --------------------------------------------------------------- cooldown

  /** Once open at T nothing but a reset changes state, T or the reported log before the cooldown
      ends: late failures do not extend it and late successes do not close it. */
  lemma {:induction false} StaysOpenUntilCooldown(c: Config, b: Circuit, es: seq<Event>)
    requires b.state == Open && NoReset(es)
    requires forall i :: 0 <= i < |es| ==> es[i].at < b.openedAt + c.cooldownMs
    ensures var r := Run(c, b, es); r.state == Open && r.openedAt == b.openedAt && r.log == b.log
  {
    if es != [] { StaysOpenUntilCooldown(c, b, es[..|es| - 1]); }
  }

  /** If a history leaves the circuit open since T, then after any further record calls before the
      cooldown ends, a check is admitted exactly from T plus the cooldown on. */
  lemma AdmittedExactlyAfterCooldown(c: Config, history: seq<Event>, es: seq<Event>, now: int)
    requires Run(c, INITIAL, history).state == Open && NoReset(es)
    requires forall i :: 0 <= i < |es| ==> es[i].at < Run(c, INITIAL, history).openedAt + c.cooldownMs
    ensures After(c, Run(c, INITIAL, history + es), Check(now)).state != Open
       <==> now >= Run(c, INITIAL, history).openedAt + c.cooldownMs
  {
    RunConcat(c, INITIAL, history, es);
    StaysOpenUntilCooldown(c, Run(c, INITIAL, history), es);
  }

  /** While the circuit is open the reported wait is at most the cooldown, and waiting that long
      is exactly what admission takes. It is positive unless the cooldown ran out between the two
      clock readings. */
  lemma WaitIsExact(c: Config, b: Circuit, now: int, later: int, delay: int)
    requires b.openedAt <= now <= later && Cooled(c, b, now).state == Open
    ensures 0 <= Wait(c, b, now, later) <= c.cooldownMs
    ensures Wait(c, b, now, later) > 0 <==> later < b.openedAt + c.cooldownMs
    ensures delay >= 0 ==> (Cooled(c, b, later + delay).state != Open <==> delay >= Wait(c, b, now, later))
  {
  }

  /** With one reading per call it is positive whenever the circuit is open. */
  lemma WaitPositive(c: Config, b: Circuit, now: int)
    requires b.openedAt <= now
    ensures Wait(c, b, now, now) > 0 <==> Cooled(c, b, now).state == Open
  {
  }

  // ------------------------------------------------------------ only faults open

  /** Successes and checks never take a closed breaker out of closed. */
  lemma {:induction false} OnlyFaultsOpen(c: Config, b: Circuit, es: seq<Event>)
    requires b.state == Closed && forall i :: 0 <= i < |es| ==> es[i].Check? || es[i].Success?
    ensures Run(c, b, es).state == Closed && Run(c, b, es).log == b.log
  {
    if es != [] { OnlyFaultsOpen(c, b, es[..|es| - 1]); }
  }
}
