/** The KeeperHub client: classification of answers, the bounded retry loop under one idempotency
    key, and the breaker around it. */
module Client {
  import opened Text
  import opened Json
  import opened Breaker

  datatype ErrorKind =
    | Unauthorized | Forbidden | NotFound | InvalidRequest | PayloadTooLarge | RateLimited
    | ColdStart | Upstream | Network | Timeout | Unknown

  datatype ClientError = ClientError(kind: ErrorKind, status: Option<int>, retryable: bool, retryAfterMs: Option<int>)

  /** The `code` of a response body, as far as the client looks at it. */
  datatype Code = NoCode | InProgress | Conflict | UpstreamColdStart | OtherCode

  /** The Retry-After header: missing or blank, delta-seconds, a date, or neither. */
  datatype RetryAfter = Absent | Delta(ms: nat) | Date(at: int) | Unreadable

  /** A response with its body parsed. */
  datatype Response = Response(status: int, code: Code, wouldRevert: bool, header: RetryAfter, envelopeMs: Option<int>)

  function ParseRetryAfter(header: RetryAfter, now: int): Option<int> {
    match header
    case Delta(ms) => Some(ms)
    case Date(at) => Some(if at > now then at - now else 0)
    case _ => None
  }

  function ToError(r: Response, now: int): ClientError {
    var delay := match ParseRetryAfter(r.header, now) case Some(ms) => Some(ms) case None => r.envelopeMs;
    if r.status == 401 then ClientError(Unauthorized, Some(401), false, None)
    else if r.status == 403 then ClientError(Forbidden, Some(403), false, None)
    else if r.status == 404 then ClientError(NotFound, Some(404), false, None)
    else if r.status == 413 then ClientError(PayloadTooLarge, Some(413), false, None)
    else if r.status == 429 then ClientError(RateLimited, Some(429), true, delay)
    else if r.status >= 500 then
      ClientError(if r.code == UpstreamColdStart then ColdStart else Upstream, Some(r.status), true, delay)
    else if r.status >= 400 then ClientError(InvalidRequest, Some(r.status), false, None)
    else ClientError(Unknown, Some(r.status), false, None)
  }

  predicate IsTransportFault(kind: ErrorKind) {
    kind == Network || kind == Timeout || kind == RateLimited || kind == ColdStart || kind == Upstream
  }

  // ----------------------------------------------------------------- backoff

  datatype RetryPolicy = RetryPolicy(maxAttempts: nat, baseDelayMs: nat, maxDelayMs: nat)

  function Min(a: int, b: int): int { if a < b then a else b }

  function TwoTo(n: nat): nat { if n == 0 then 1 else 2 * TwoTo(n - 1) }

  function BackoffMs(attempt: nat, policy: RetryPolicy, random: real, serverDelayMs: Option<int>): int
    requires attempt >= 1
  {
    match serverDelayMs
    case Some(ms) => Min(ms, policy.maxDelayMs)
    case None => (random * Min(policy.maxDelayMs, policy.baseDelayMs * TwoTo(attempt - 1)) as real).Floor
  }

  lemma BackoffBounded(attempt: nat, policy: RetryPolicy, random: real, serverDelayMs: Option<int>)
    requires attempt >= 1 && 0.0 <= random < 1.0
    ensures BackoffMs(attempt, policy, random, serverDelayMs) <= policy.maxDelayMs
    ensures serverDelayMs.None? || serverDelayMs.value >= 0 ==> BackoffMs(attempt, policy, random, serverDelayMs) >= 0
  {
    if serverDelayMs.None? {
      var ceiling := Min(policy.maxDelayMs, policy.baseDelayMs * TwoTo(attempt - 1));
      assert ceiling >= 0;
      ScaledDown(random, ceiling);
    }
  }

  lemma ScaledDown(random: real, ceiling: nat)
    requires 0.0 <= random < 1.0
    ensures 0 <= (random * ceiling as real).Floor <= ceiling
  {
    var c := ceiling as real;
    assert 0.0 <= random * c <= 1.0 * c;
  }

  // ------------------------------------------------------------- the retry loop

  datatype Request = Request(key: Str, body: Str)

  datatype Fault = NetworkFault | TimeoutFault

  /** What one transport call yields: it throws, or it returns a response. */
  datatype Delivery = Lost(fault: Fault) | Got(response: Response)

  /** What the loop does with it. */
  datatype Step = Return(response: Response) | Fail(error: ClientError) | Again(error: ClientError, delay: Option<int>)

  function Classify(d: Delivery, now: int): Step {
    match d
    case Lost(f) => Again(ClientError(if f == TimeoutFault then Timeout else Network, None, true, None), None)
    case Got(r) =>
      if r.status < 400 then Return(r)
      else if r.status == 409 then
        if r.code == InProgress then Again(ToError(r, now), None) else Fail(ToError(r, now))
      else if r.status == 400 && r.wouldRevert then Return(r)
      else
        var e := ToError(r, now);
        if e.retryable then Again(e, e.retryAfterMs) else Fail(e)
  }

  datatype Outcome = Returned(response: Response) | Thrown(error: ClientError)

  /** The outcome if this is the last attempt. */
  function Final(d: Delivery, now: int): Outcome {
    match Classify(d, now)
    case Return(r) => Returned(r)
    case Fail(e) => Thrown(e)
    case Again(e, _) => Thrown(e)
  }

  const EXHAUSTED := ClientError(Unknown, None, false, None)

  function Sum(s: seq<int>): int {
    if s == [] then 0 else Sum(s[..|s| - 1]) + s[|s| - 1]
  }

  lemma SumSnoc(s: seq<int>, x: int)
    ensures Sum(s + [x]) == Sum(s) + x
  {
    assert (s + [x])[..|s|] == s;
  }

  /** The answers after which a request is made again: none at all, a conflict with a request still in
      progress, too many requests, or an upstream failure. */
  predicate Repeatable(d: Delivery) {
    || d.Lost?
    || (d.response.status == 409 && d.response.code == InProgress)
    || d.response.status == 429
    || d.response.status >= 500
  }

  lemma AgainMeans(d: Delivery, now: int)
    ensures Classify(d, now).Again? <==> Repeatable(d)
  {
  }

  /** The attempts go on exactly while they may be repeated. */
  ghost predicate StopsAt(n: nat, env: nat -> Delivery, policy: RetryPolicy) {
    && n <= policy.maxAttempts
    && (forall i :: 1 <= i < n ==> Repeatable(env(i)))
    && (n < policy.maxAttempts ==> n >= 1 && !Repeatable(env(n)))
  }

  /** The pause the server asks for: of a 429 or an upstream failure its header, in seconds or as a
      date not yet past, or else the number in the body. */
  ghost predicate Asks(d: Delivery, now: int, ms: int) {
    && d.Got? && (d.response.status == 429 || d.response.status >= 500)
    && ((d.response.header.Delta? && d.response.header.ms == ms)
        || (d.response.header.Date? && ms >= 0 && (ms == 0 <==> d.response.header.at <= now)
            && (ms > 0 ==> now + ms == d.response.header.at))
        || (!d.response.header.Delta? && !d.response.header.Date? && d.response.envelopeMs == Some(ms)))
  }

  /** A pause after attempt n: what the server asks for, or at random up to a ceiling that doubles with
      every attempt, and never more than the maximum. */
  ghost predicate Pauses(policy: RetryPolicy, n: nat, d: Delivery, now: int, random: real, ms: int)
    requires n >= 1
  {
    && (forall asked :: Asks(d, now, asked) ==> ms == if asked > policy.maxDelayMs then policy.maxDelayMs else asked)
    && ((forall asked :: !Asks(d, now, asked)) ==>
          exists ceiling: nat :: Ceiling(policy, n, ceiling) && 0.0 <= random * ceiling as real - ms as real < 1.0)
  }

  ghost predicate Ceiling(policy: RetryPolicy, n: nat, ceiling: nat)
    requires n >= 1
  {
    && ceiling <= policy.maxDelayMs && ceiling <= policy.baseDelayMs * TwoTo(n - 1)
    && (ceiling == policy.maxDelayMs || ceiling == policy.baseDelayMs * TwoTo(n - 1))
  }

  /** The delay that comes with an answer to be repeated. */
  function DelayOf(d: Delivery, now: int): Option<int> {
    match Classify(d, now)
    case Again(_, delay) => delay
    case _ => None
  }

  lemma DelayAsked(d: Delivery, now: int, ms: int)
    requires Repeatable(d)
    ensures DelayOf(d, now) == Some(ms) <==> Asks(d, now, ms)
  {
  }

  lemma PauseMeans(policy: RetryPolicy, n: nat, d: Delivery, now: int, random: real)
    requires n >= 1 && Repeatable(d)
    ensures Pauses(policy, n, d, now, random, BackoffMs(n, policy, random, DelayOf(d, now)))
  {
    forall ms ensures DelayOf(d, now) == Some(ms) <==> Asks(d, now, ms) { DelayAsked(d, now, ms); }
    match DelayOf(d, now)
    case None => PauseAtRandom(policy, n, d, now, random);
    case Some(asked) => assert Asks(d, now, asked);
  }

  lemma PauseAtRandom(policy: RetryPolicy, n: nat, d: Delivery, now: int, random: real)
    requires n >= 1 && forall ms :: !Asks(d, now, ms)
    ensures Pauses(policy, n, d, now, random, BackoffMs(n, policy, random, None))
  {
    var ceiling := Min(policy.maxDelayMs, policy.baseDelayMs * TwoTo(n - 1));
    assert Ceiling(policy, n, ceiling);
    var r := random * ceiling as real;
    assert BackoffMs(n, policy, random, None) == r.Floor && 0.0 <= r - r.Floor as real < 1.0;
  }

  /** `env(i)`, `now(i)` and `random(i)` are the transport's answer, the clock and the random
      number of attempt i. Every attempt carries the one request. */
  method SendWithRetries(policy: RetryPolicy, request: Request, env: nat -> Delivery, now: nat -> int,
                         random: nat -> real)
    returns (out: Outcome, sent: seq<Request>, slept: seq<int>)
    requires forall i :: 0.0 <= random(i) < 1.0
    ensures StopsAt(|sent|, env, policy)
    ensures forall i :: 0 <= i < |sent| ==> sent[i] == request
    ensures forall i :: 0 <= i < |slept| ==> Pauses(policy, i + 1, env(i + 1), now(i + 1), random(i + 1), slept[i])
    ensures out == if sent == [] then Thrown(EXHAUSTED) else Final(env(|sent|), now(|sent|))
    ensures sent == [] <==> policy.maxAttempts == 0
    ensures |slept| == if sent == [] then 0 else |sent| - 1
    ensures forall i :: 0 <= i < |slept| ==> slept[i] <= policy.maxDelayMs
    ensures Sum(slept) <= |slept| * policy.maxDelayMs
  {
    sent, slept := [], [];
    for attempt := 1 to policy.maxAttempts + 1
      invariant |sent| == |slept| == attempt - 1
      invariant forall i :: 0 <= i < |sent| ==> sent[i] == request
      invariant forall i :: 1 <= i < attempt ==> Repeatable(env(i))
      invariant forall i :: 0 <= i < |slept| ==> Pauses(policy, i + 1, env(i + 1), now(i + 1), random(i + 1), slept[i])
      invariant forall i :: 0 <= i < |slept| ==> slept[i] <= policy.maxDelayMs
      invariant Sum(slept) <= |slept| * policy.maxDelayMs
      invariant attempt == policy.maxAttempts + 1 ==> policy.maxAttempts == 0
    {
      sent := sent + [request];
      AgainMeans(env(attempt), now(attempt));
      match Classify(env(attempt), now(attempt))
      case Return(response) => return Returned(response), sent, slept;
      case Fail(error) => return Thrown(error), sent, slept;
      case Again(error, delay) =>
        if attempt == policy.maxAttempts { return Thrown(error), sent, slept; }
        var ms := BackoffMs(attempt, policy, random(attempt), delay);
        BackoffBounded(attempt, policy, random(attempt), delay);
        PauseMeans(policy, attempt, env(attempt), now(attempt), random(attempt));
        SumSnoc(slept, ms);
        OneMoreDelay(|slept|, policy.maxDelayMs);
        slept := slept + [ms];
    }
    return Thrown(EXHAUSTED), sent, slept;
  }

  lemma OneMoreDelay(n: nat, max: nat)
    ensures (n + 1) * max == n * max + max
  {
  }

  /** The final error of a request is a transport fault exactly when its last answer was none, a
      429 or a 5xx; an exhausted 409 is not one. */
  lemma FaultMeansUpstream(d: Delivery, now: int)
    requires Final(d, now).Thrown?
    ensures IsTransportFault(Final(d, now).error.kind) <==>
      d.Lost? || d.response.status == 429 || d.response.status >= 500
  {
  }

  /** A request returns exactly an answer below 400 and a predicted revert, as it came. */
  lemma ReturnedMeans(d: Delivery, now: int, r: Response)
    ensures Final(d, now) == Returned(r) <==>
      d == Got(r) && (r.status < 400 || (r.status == 400 && r.wouldRevert))
  {
  }

  /** The kinds of error that a status stands for on its own. */
  function KindNamed(status: int): Option<ErrorKind> {
    if status == 401 then Some(Unauthorized) else if status == 403 then Some(Forbidden)
    else if status == 404 then Some(NotFound) else if status == 413 then Some(PayloadTooLarge)
    else if status == 429 then Some(RateLimited) else None
  }

  /** Any other answer is thrown with its status, as an error of the kind the status names, and else of
      a request at fault or of an upstream at fault. The error says that trying again may help exactly
      of losses, 429 and upstream failures. */
  lemma ThrownMeans(d: Delivery, now: int)
    requires Final(d, now).Thrown?
    ensures var e := Final(d, now).error;
      && (d.Lost? ==> e.status == None && e.kind == if d.fault == TimeoutFault then Timeout else Network)
      && (d.Got? ==>
            var r := d.response;
            && e.status == Some(r.status) && r.status >= 400
            && match KindNamed(r.status)
               case Some(kind) => e.kind == kind
               case None =>
                 if r.status < 500 then e.kind == InvalidRequest
                 else e.kind == if r.code == UpstreamColdStart then ColdStart else Upstream)
      && (e.retryable <==> d.Lost? || d.response.status == 429 || d.response.status >= 500)
  {
  }

  // ------------------------------------------------------ the breaker around it

  datatype RequestResult = CircuitOpen(retryAfterMs: int) | Settled(out: Outcome)

  /** The breaker event that an outcome is recorded as. */
  function Recorded(out: Outcome, at: int, later: int): Event {
    if out.Thrown? && IsTransportFault(out.error.kind) then Failure(at, later) else Success(at, later)
  }

  /** Clock readings of one request: the admission check, the two of a refusal, the two of the
      record. */
  datatype Readings = Readings(check: int, again: int, wait: int, record: int, later: int)

  /** The breaker-guarded entry point. */
  method GuardedRequest(breaker: CircuitBreaker, t: Readings, policy: RetryPolicy, request: Request,
                        env: nat -> Delivery, now: nat -> int, random: nat -> real)
    returns (result: RequestResult, sent: seq<Request>)
    requires forall i :: 0.0 <= random(i) < 1.0
    modifies breaker
    ensures var checked := After(breaker.config, old(breaker.Value()), Check(t.check));
      if checked.state == Open then
        && result == CircuitOpen(Wait(breaker.config, checked, t.again, t.wait)) && sent == []
        && breaker.Value() == After(breaker.config, checked, Check(t.again))
      else
        && result.Settled? && StopsAt(|sent|, env, policy)
        && (forall i :: 0 <= i < |sent| ==> sent[i] == request)
        && result.out == (if sent == [] then Thrown(EXHAUSTED) else Final(env(|sent|), now(|sent|)))
        && breaker.Value() == After(breaker.config, checked, Recorded(result.out, t.record, t.later))
  {
    var refused, wait := breaker.AssertAllowed(t.check, t.again, t.wait);
    if refused { return CircuitOpen(wait), []; }
    var out, attempts, _ := SendWithRetries(policy, request, env, now, random);
    if out.Thrown? && IsTransportFault(out.error.kind) {
      breaker.RecordFailure(t.record, t.later);
    } else {
      breaker.RecordSuccess(t.record, t.later);
    }
    return Settled(out), attempts;
  }

  /** One answered request as the breaker sees it. */
  datatype Answered = Answered(check: int, out: Outcome, record: int, later: int)

  function EventsOf(rs: seq<Answered>): seq<Event> {
    if rs == [] then []
    else EventsOf(rs[..|rs| - 1])
         + [Check(rs[|rs| - 1].check), Recorded(rs[|rs| - 1].out, rs[|rs| - 1].record, rs[|rs| - 1].later)]
  }

  /** Simulated reverts, rejected requests, conflicts and successes, in any number and order, never
      take a closed breaker out of closed: whoever submits unsafe intents cannot open it. */
  lemma {:induction false} AnswersNeverOpen(c: Config, b: Circuit, rs: seq<Answered>)
    requires b.state == Closed
    requires forall i :: 0 <= i < |rs| ==>
      rs[i].out.Returned? || !IsTransportFault(rs[i].out.error.kind)
    ensures Run(c, b, EventsOf(rs)).state == Closed && Run(c, b, EventsOf(rs)).log == b.log
  {
    EventsHarmless(rs);
    OnlyFaultsOpen(c, b, EventsOf(rs));
  }

  lemma {:induction false} EventsHarmless(rs: seq<Answered>)
    requires forall i :: 0 <= i < |rs| ==> rs[i].out.Returned? || !IsTransportFault(rs[i].out.error.kind)
    ensures forall i :: 0 <= i < |EventsOf(rs)| ==> EventsOf(rs)[i].Check? || EventsOf(rs)[i].Success?
  {
    if rs != [] { EventsHarmless(rs[..|rs| - 1]); }
  }

  // ------------------------------------------- a lossy network, an idempotent server

  /** What the server remembers under a key. */
  datatype Entry = Entry(body: Str, applied: bool)

  /** The ledger of keys seen and the sends that took effect, in order. */
  datatype Server = Server(ledger: map<Str, Entry>, effects: seq<Request>)

  /** One effect per key, and exactly the applied entries have had theirs. */
  ghost predicate Consistent(s: Server) {
    && (forall i, j :: 0 <= i < j < |s.effects| ==> s.effects[i].key != s.effects[j].key)
    && (forall e :: e in s.effects ==> e.key in s.ledger && s.ledger[e.key] == Entry(e.body, true))
    && (forall k :: k in s.ledger && s.ledger[k].applied ==> Request(k, s.ledger[k].body) in s.effects)
  }

  /** The documented idempotency contract, as what may happen when a request arrives. A key not
      seen before may be refused, taken up or carried out at once; under a known key another body
      is a conflict, an applied send is answered without a second effect, a pending one may
      complete. Below 400 means the send has been carried out. */
  ghost predicate Handles(s: Server, q: Request, s': Server, r: Response) {
    var applied := Server(s.ledger[q.key := Entry(q.body, true)], s.effects + [q]);
    if q.key !in s.ledger then
      || (r.status >= 400 && s' == s)
      || (r.status >= 400 && s' == Server(s.ledger[q.key := Entry(q.body, false)], s.effects))
      || s' == applied
    else if s.ledger[q.key].body != q.body then s' == s && r.status == 409 && r.code == Conflict
    else if s.ledger[q.key].applied then s' == s
    else (r.status >= 400 && s' == s) || s' == applied
  }

  /** What the server may do besides: other clients' requests and its own pending work. */
  ghost predicate Evolves(s: Server, s': Server) {
    && Consistent(s')
    && s.effects <= s'.effects
    && forall k :: k in s.ledger ==>
         k in s'.ledger && s'.ledger[k].body == s.ledger[k].body && (s.ledger[k].applied ==> s'.ledger[k].applied)
  }

  lemma HandlesEvolves(s: Server, q: Request, s': Server, r: Response)
    requires Consistent(s) && Handles(s, q, s', r)
    ensures Evolves(s, s')
    ensures r.status < 400 ==> q.key in s'.ledger && s'.ledger[q.key] == Entry(q.body, true)
  {
    if |s'.effects| > |s.effects| {
      forall e | e in s'.effects ensures e.key in s'.ledger && s'.ledger[e.key] == Entry(e.body, true) {
        if e in s.effects { assert e.key != q.key; } else { assert e == q; }
      }
      forall i | 0 <= i < |s.effects| ensures s.effects[i].key != q.key { assert s.effects[i] in s.effects; }
      assert q in s'.effects;
    }
  }

  /** One attempt on the network: the request may be lost on the way, and the response may be lost
      on the way back after the server has handled it. */
  datatype Round = Round(before: Server, reached: Option<Response>, after: Server, delivery: Delivery)

  ghost predicate ValidRound(q: Request, r: Round) {
    match r.reached
    case None => r.after == r.before && r.delivery.Lost?
    case Some(response) => Handles(r.before, q, r.after, response) && (r.delivery.Lost? || r.delivery == Got(response))
  }

  /** The attempts of one call, with arbitrary server activity in between. */
  ghost predicate Session(q: Request, rounds: seq<Round>, env: nat -> Delivery) {
    && (forall i :: 0 <= i < |rounds| ==> ValidRound(q, rounds[i]) && rounds[i].delivery == env(i + 1))
    && (forall i :: 0 <= i < |rounds| - 1 ==> Evolves(rounds[i].after, rounds[i + 1].before))
  }

  ghost function Effects(s: Server, key: Str): nat { CountKey(s.effects, key) }

  ghost function CountKey(es: seq<Request>, key: Str): nat {
    if es == [] then 0 else (if es[0].key == key then 1 else 0) + CountKey(es[1..], key)
  }

  lemma {:induction false} CountDistinct(es: seq<Request>, key: Str)
    requires forall i, j :: 0 <= i < j < |es| ==> es[i].key != es[j].key
    ensures CountKey(es, key) <= 1
    ensures CountKey(es, key) == 1 <==> exists e :: e in es && e.key == key
  {
    if es != [] {
      CountDistinct(es[1..], key);
      if es[0].key == key {
        assert es[0] in es;
        if e :| e in es[1..] && e.key == key { assert false; }
      } else {
        assert forall e :: e in es && e.key == key ==> e in es[1..];
      }
    }
  }

  lemma {:induction false} SessionConsistent(q: Request, rounds: seq<Round>, env: nat -> Delivery, k: nat)
    requires Session(q, rounds, env) && k < |rounds| && Consistent(rounds[0].before)
    ensures Consistent(rounds[k].before) && Consistent(rounds[k].after)
  {
    if k > 0 { SessionConsistent(q, rounds, env, k - 1); }
    if rounds[k].reached.Some? {
      HandlesEvolves(rounds[k].before, q, rounds[k].after, rounds[k].reached.value);
    }
  }

  /** One call, however many attempts it takes and whatever the network loses: at most one effect
      under its key. If it returns a response below 400 there is exactly one, with its body. The
      only other response it returns is a predicted revert. */
  lemma CallTakesEffectOnce(policy: RetryPolicy, q: Request, rounds: seq<Round>, env: nat -> Delivery, now: nat -> int)
    requires policy.maxAttempts > 0 && StopsAt(|rounds|, env, policy)
    requires Session(q, rounds, env) && Consistent(rounds[0].before)
    ensures var last := rounds[|rounds| - 1].after;
      var out := Final(env(|rounds|), now(|rounds|));
      && Effects(last, q.key) <= 1
      && (out.Returned? && out.response.status < 400 ==> Effects(last, q.key) == 1 && q in last.effects)
      && (out.Returned? && out.response.status >= 400 ==> out.response.status == 400 && out.response.wouldRevert)
  {
    var n := |rounds|;
    var last := rounds[n - 1];
    SessionConsistent(q, rounds, env, n - 1);
    CountDistinct(last.after.effects, q.key);
    var out := Final(env(n), now(n));
    if out.Returned? && out.response.status < 400 {
      HandlesEvolves(last.before, q, last.after, last.reached.value);
      assert last.delivery == env(n);
      assert q in last.after.effects;
    }
  }

  /** The two cases do differ: a send the server answers with 400 and wouldRevert is returned as if
      accepted, and nothing has taken effect. */
  lemma RevertedSendReturnsWithoutEffect(q: Request, now: int)
    ensures var s := Server(map[], []);
      var r := Response(400, NoCode, true, Absent, None);
      && Consistent(s) && Handles(s, q, s, r) && Final(Got(r), now) == Returned(r) && Effects(s, q.key) == 0
  {
  }
}
