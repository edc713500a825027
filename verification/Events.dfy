/** The event log: what a record must look like to be handed on, and the poison-message policy. */
module Events {
  import opened Text
  import opened Json
  import opened Intents
  import opened Canonical
  import Hex
  import Receipts

  // ------------------------------------------------------------- validation

  datatype Event = DecisionEvent(intentId: Str, verdict: Verdict, digest: Str) | OtherEvent

  /** A rejection names the field at fault. */
  datatype Decoded = Ok(event: Event) | Rejected(field: Str)

  function VerdictNamed(v: Option<Json>): Option<Verdict> {
    if v == Some(Text(S("ALLOW"))) then Some(ALLOW)
    else if v == Some(Text(S("HOLD"))) then Some(HOLD)
    else if v == Some(Text(S("DENY"))) then Some(DENY)
    else None
  }

  /** The properties of a payload that decoding looks at. */
  datatype Fields = Fields(
    v: Option<Json>, kind: Option<Json>, intentId: Option<Json>, verdict: Option<Json>, digest: Option<Json>,
    chainId: Option<Json>, reasons: Option<Json>, at: Option<Json>)

  function FieldsOf(ms: seq<Member>): Fields {
    Fields(Field(ms, S("v")), Field(ms, S("type")), Field(ms, S("intentId")), Field(ms, S("verdict")),
           Field(ms, S("digest")), Field(ms, S("chainId")), Field(ms, S("reasons")), Field(ms, S("at")))
  }

  /** `readable` stands for a Date.parse that does not yield NaN. */
  function ValidateDecision(f: Fields, readable: Str -> bool): Decoded {
    var verdict := VerdictNamed(f.verdict);
    if !(f.intentId.Some? && f.intentId.value.Text? && f.intentId.value.s != []) then Rejected(S("intentId"))
    else if verdict.None? then Rejected(S("verdict"))
    else if !(f.digest.Some? && f.digest.value.Text? && Hex.IsHex(f.digest.value.s)) then Rejected(S("digest"))
    else if |f.digest.value.s| != 66 then Rejected(S("digest"))
    else if !(f.chainId.Some? && f.chainId.value.Num? && f.chainId.value.n > 0) then Rejected(S("chainId"))
    else if !(f.reasons.Some? && f.reasons.value.Arr?) then Rejected(S("reasons"))
    else if !(f.at.Some? && f.at.value.Text? && readable(f.at.value.s)) then Rejected(S("at"))
    else Ok(DecisionEvent(f.intentId.value.s, verdict.value, f.digest.value.s))
  }

  function DecodeFields(f: Fields, readable: Str -> bool): Decoded {
    if f.v != Some(Num(1)) then Rejected(S("v"))
    else if f.kind == Some(Text(S("decision"))) then ValidateDecision(f, readable)
    else if f.kind == Some(Text(S("anchor"))) || f.kind == Some(Text(S("dead-letter"))) then Ok(OtherEvent)
    else Rejected(S("type"))
  }

  /** `parsed` is the payload as JSON, None if it is empty or not JSON. */
  function DecodeEvent(parsed: Option<Json>, readable: Str -> bool): Decoded {
    match parsed
    case Some(Obj(ms)) => DecodeFields(FieldsOf(ms), readable)
    case _ => Rejected(S("$"))
  }

  /** Every decoded decision carries the digest its payload names, and it is 0x and 64 hexadecimal
      digits, so reading it as bytes yields a 32-byte leaf. */
  lemma DecodedDigestReads(parsed: Option<Json>, readable: Str -> bool)
    requires var d := DecodeEvent(parsed, readable); d.Ok? && d.event.DecisionEvent?
    ensures var digest := DecodeEvent(parsed, readable).event.digest;
      && parsed.Some? && parsed.value.Obj? && Field(parsed.value.members, S("digest")) == Some(Text(digest))
      && Hex.IsDigest(digest)
      && Hex.FromHex(digest).Some? && |Hex.FromHex(digest).value| == 32
  {
    Hex.DigestReads(DecodeEvent(parsed, readable).event.digest);
  }

  /** The fields that decode to this decision: version 1, type decision, a non-empty id, the name of
      the verdict, a digest of 0x and 64 hexadecimal digits, a positive chain id, an array of reasons
      and a readable time. */
  predicate IsDecision(f: Fields, readable: Str -> bool, id: Str, verdict: Verdict, digest: Str) {
    && f.v == Some(Num(1)) && f.kind == Some(Text(S("decision"))) && f.intentId == Some(Text(id)) && id != []
    && f.verdict == Some(Text(Receipts.VerdictText(verdict))) && f.digest == Some(Text(digest)) && Hex.IsDigest(digest)
    && f.chainId.Some? && f.chainId.value.Num? && f.chainId.value.n > 0
    && f.reasons.Some? && f.reasons.value.Arr? && f.at.Some? && f.at.value.Text? && readable(f.at.value.s)
  }

  lemma VerdictNamedExactly(v: Option<Json>, verdict: Verdict)
    ensures VerdictNamed(v) == Some(verdict) <==> v == Some(Text(Receipts.VerdictText(verdict)))
  {
    assert |S("ALLOW")| == 5 && |S("HOLD")| == 4 && |S("DENY")| == 4;
    assert S("HOLD")[0] == 'H' as int && S("DENY")[0] == 'D' as int;
  }

  lemma ValidExactly(f: Fields, readable: Str -> bool, id: Str, verdict: Verdict, digest: Str)
    requires f.v == Some(Num(1)) && f.kind == Some(Text(S("decision")))
    ensures ValidateDecision(f, readable) == Ok(DecisionEvent(id, verdict, digest))
       <==> IsDecision(f, readable, id, verdict, digest)
  {
    VerdictNamedExactly(f.verdict, verdict);
  }

  lemma FieldsDecodeExactly(f: Fields, readable: Str -> bool, id: Str, verdict: Verdict, digest: Str)
    ensures DecodeFields(f, readable) == Ok(DecisionEvent(id, verdict, digest))
       <==> IsDecision(f, readable, id, verdict, digest)
  {
    if f.v == Some(Num(1)) && f.kind == Some(Text(S("decision"))) {
      ValidExactly(f, readable, id, verdict, digest);
    }
  }

  /** Of the other events only version and type are looked at. */
  lemma OthersExactly(parsed: Option<Json>, readable: Str -> bool)
    ensures DecodeEvent(parsed, readable) == Ok(OtherEvent) <==>
      && parsed.Some? && parsed.value.Obj?
      && var f := FieldsOf(parsed.value.members);
      && f.v == Some(Num(1)) && (f.kind == Some(Text(S("anchor"))) || f.kind == Some(Text(S("dead-letter"))))
  {
    if parsed.Some? && parsed.value.Obj? { OtherFields(FieldsOf(parsed.value.members), readable); }
  }

  lemma OtherFields(f: Fields, readable: Str -> bool)
    ensures DecodeFields(f, readable) == Ok(OtherEvent) <==>
      f.v == Some(Num(1)) && (f.kind == Some(Text(S("anchor"))) || f.kind == Some(Text(S("dead-letter"))))
  {
    assert |S("decision")| == 8 && |S("anchor")| == 6 && |S("dead-letter")| == 11;
  }

  /** A payload decodes to a decision exactly if its fields are that decision's. */
  lemma DecodesExactly(parsed: Option<Json>, readable: Str -> bool, id: Str, verdict: Verdict, digest: Str)
    ensures DecodeEvent(parsed, readable) == Ok(DecisionEvent(id, verdict, digest)) <==>
      parsed.Some? && parsed.value.Obj? && IsDecision(FieldsOf(parsed.value.members), readable, id, verdict, digest)
  {
    if parsed.Some? && parsed.value.Obj? {
      FieldsDecodeExactly(FieldsOf(parsed.value.members), readable, id, verdict, digest);
    }
  }

  // ---------------------------------------------------------- what is published

  function EventHead(r: Receipts.Receipt, digest: Str): (ms: seq<Member>)
    ensures |ms| == 10
  {
    [Member(S("v"), Num(1)),
     Member(S("type"), Text(S("decision"))),
     Member(S("intentId"), Text(r.intentId)),
     Member(S("chainId"), Num(r.chainId)),
     Member(S("verdict"), Text(Receipts.VerdictText(r.verdict))),
     Member(S("digest"), Text(digest)),
     Member(S("policyHash"), Text(r.policyHash)),
     Member(S("guard"), Text(r.guard)),
     Member(S("reasons"), Arr(Receipts.ReasonsJson(r.reasons))),
     Member(S("simulated"), Receipts.SimulationJson(r.simulation))]
  }

  function TraceMember(traceparent: Option<Str>): seq<Member> {
    match traceparent
    case None => []
    case Some(t) => [Member(S("traceparent"), Text(t))]
  }

  /** The decision event the gateway writes for a receipt. */
  function EventMembers(r: Receipts.Receipt, digest: Str, traceparent: Option<Str>): seq<Member> {
    EventHead(r, digest) + (TraceMember(traceparent) + [Member(S("at"), Text(r.at))])
  }

  lemma HeadField(r: Receipts.Receipt, digest: Str, i: nat)
    requires i < 10
    ensures Field(EventHead(r, digest), EventHead(r, digest)[i].key) == Some(EventHead(r, digest)[i].value)
  {
    var ms := EventHead(r, digest);
    var sizes := [1, 4, 8, 7, 7, 6, 10, 5, 7, 9];
    var firsts := ['v', 't', 'i', 'c', 'v', 'd', 'p', 'g', 'r', 's'];
    forall j | 0 <= j < 10 ensures |ms[j].key| == sizes[j] && ms[j].key[0] == firsts[j] as int {
    }
    FieldAt(ms, i);
  }

  function FieldsFor(r: Receipts.Receipt, digest: Str): Fields {
    Fields(Some(Num(1)), Some(Text(S("decision"))), Some(Text(r.intentId)), Some(Text(Receipts.VerdictText(r.verdict))),
           Some(Text(digest)), Some(Num(r.chainId)), Some(Arr(Receipts.ReasonsJson(r.reasons))), Some(Text(r.at)))
  }

  lemma CarriedAt(r: Receipts.Receipt, digest: Str, traceparent: Option<Str>, i: nat)
    requires i < 10
    ensures Field(EventMembers(r, digest, traceparent), EventHead(r, digest)[i].key)
      == Some(EventHead(r, digest)[i].value)
  {
    HeadField(r, digest, i);
    FieldInFront(EventHead(r, digest), TraceMember(traceparent) + [Member(S("at"), Text(r.at))],
                 EventHead(r, digest)[i].key);
  }

  lemma TimeCarried(r: Receipts.Receipt, digest: Str, traceparent: Option<Str>)
    ensures Field(EventMembers(r, digest, traceparent), S("at")) == Some(Text(r.at))
  {
    var head, rest := EventHead(r, digest), TraceMember(traceparent) + [Member(S("at"), Text(r.at))];
    forall j | 0 <= j < 10 ensures |head[j].key| != 2 {
    }
    FieldInFront(head, rest, S("at"));
    FieldAt(rest, |rest| - 1);
  }

  /** The fields a validator looks at are those of the receipt. */
  lemma EventCarries(r: Receipts.Receipt, digest: Str, traceparent: Option<Str>)
    ensures FieldsOf(EventMembers(r, digest, traceparent)) == FieldsFor(r, digest)
  {
    CarriedAt(r, digest, traceparent, 0);
    CarriedAt(r, digest, traceparent, 1);
    CarriedAt(r, digest, traceparent, 2);
    CarriedAt(r, digest, traceparent, 3);
    CarriedAt(r, digest, traceparent, 4);
    CarriedAt(r, digest, traceparent, 5);
    CarriedAt(r, digest, traceparent, 8);
    TimeCarried(r, digest, traceparent);
  }

  lemma VerdictReads(v: Verdict)
    ensures VerdictNamed(Some(Text(Receipts.VerdictText(v)))) == Some(v)
  {
    assert S("ALLOW")[0] == 'A' as int && S("HOLD")[0] == 'H' as int && S("DENY")[0] == 'D' as int;
  }

  lemma HeadPure(r: Receipts.Receipt, digest: Str, i: nat)
    requires i < 10
    ensures Pure(EventHead(r, digest)[i].value)
  {
    forall k | 0 <= k < |r.reasons| ensures Pure(Receipts.ReasonsJson(r.reasons)[k]) {
      Receipts.ReasonWellFormed(r.reasons[k]);
    }
    Receipts.SimulationWellFormed(r.simulation);
  }

  lemma EventReadsBack(r: Receipts.Receipt, digest: Str, traceparent: Option<Str>)
    ensures var event := Obj(EventMembers(r, digest, traceparent)); Parse(Emit(event)) == Some((event, []))
  {
    var ms := EventMembers(r, digest, traceparent);
    forall i | 0 <= i < |ms| ensures Pure(ms[i].value) {
      if i < 10 { HeadPure(r, digest, i); }
    }
    ParseEmit(Obj(ms), []);
    assert Emit(Obj(ms)) + [] == Emit(Obj(ms));
  }

  /** What makes a payload that carries a receipt acceptable. */
  predicate Acceptable(r: Receipts.Receipt, readable: Str -> bool) {
    r.intentId != [] && r.chainId > 0 && readable(r.at)
  }

  lemma ReceiptFieldsDecode(r: Receipts.Receipt, digest: Str, readable: Str -> bool)
    requires Hex.IsDigest(digest)
    ensures Acceptable(r, readable) ==>
      DecodeFields(FieldsFor(r, digest), readable) == Ok(DecisionEvent(r.intentId, r.verdict, digest))
    ensures !Acceptable(r, readable) ==> DecodeFields(FieldsFor(r, digest), readable).Rejected?
  {
    VerdictReads(r.verdict);
  }

  /** No published decision is lost on the way to the batch, with one exception: the text of the
      event reads back as written, and it decodes to the decision with the receipt's digest exactly
      if the intent's id is not empty, its chain id is positive and its time can be read. The
      gateway publishes without checking the first two; such a record goes to the dead letters. */
  lemma PublishedDecodes(h: Hex.Hash, r: Receipts.Receipt, traceparent: Option<Str>, readable: Str -> bool)
    ensures var digest := Receipts.ReceiptDigest(h, r);
      var event := Obj(EventMembers(r, digest, traceparent));
      && Parse(Emit(event)) == Some((event, []))
      && (Acceptable(r, readable) ==>
            DecodeEvent(Some(event), readable) == Ok(DecisionEvent(r.intentId, r.verdict, digest)))
      && (!Acceptable(r, readable) ==> DecodeEvent(Some(event), readable).Rejected?)
  {
    var digest := Receipts.ReceiptDigest(h, r);
    EventReadsBack(r, digest, traceparent);
    EventCarries(r, digest, traceparent);
    Receipts.ReceiptDigestIsDigest(h, r);
    ReceiptFieldsDecode(r, digest, readable);
  }

  // ------------------------------------------------------- the retry policy

  /** How a record ends: handled at an attempt, or sent to the dead-letter topic after a number of
      attempts, which may itself fail and is then reported. */
  datatype Fate = Handled(attempt: nat) | DeadLettered(attempts: int, written: bool)

  datatype Delivery<S> = Delivery(state: S, fate: Fate, calls: nat)

  /** The state after n failing attempts. */
  function AfterAttempts<S>(s: S, n: nat, handler: (S, nat) -> (S, bool)): S {
    if n == 0 then s else handler(AfterAttempts(s, n - 1, handler), n).0
  }

  ghost predicate Succeeds<S>(s: S, n: nat, handler: (S, nat) -> (S, bool)) {
    n > 0 && handler(AfterAttempts(s, n - 1, handler), n).1
  }

  /** What is left to do after n attempts that failed. */
  function DeliverFrom<S>(s: S, n: nat, maxAttempts: int, handler: (S, nat) -> (S, bool),
                          letterWritten: bool): Delivery<S>
    decreases maxAttempts - n
  {
    if n >= maxAttempts then Delivery(s, DeadLettered(maxAttempts, letterWritten), n)
    else
      var (t, done) := handler(s, n + 1);
      if done then Delivery(t, Handled(n + 1), n + 1) else DeliverFrom(t, n + 1, maxAttempts, handler, letterWritten)
  }

  function Delivered<S>(s: S, decoded: Decoded, maxAttempts: int, handler: (S, nat) -> (S, bool),
                        letterWritten: bool): Delivery<S> {
    if decoded.Rejected? then Delivery(s, DeadLettered(1, letterWritten), 0)
    else DeliverFrom(s, 0, maxAttempts, handler, letterWritten)
  }

  /** eachMessage: `handler(s, n)` is the effect of attempt n and whether it returned. */
  method EachMessage<S>(s: S, decoded: Decoded, maxAttempts: int, handler: (S, nat) -> (S, bool), letterWritten: bool)
    returns (d: Delivery<S>)
    ensures decoded.Rejected? ==> d == Delivery(s, DeadLettered(1, letterWritten), 0)
    ensures decoded.Ok? ==> Retried(s, maxAttempts, handler, letterWritten, d)
    ensures d == Delivered(s, decoded, maxAttempts, handler, letterWritten)
  {
    if decoded.Rejected? { return Delivery(s, DeadLettered(1, letterWritten), 0); }
    var state := s;
    var attempt := 1;
    while attempt <= maxAttempts
      invariant 1 <= attempt && (attempt == 1 || attempt <= maxAttempts + 1)
      invariant state == AfterAttempts(s, attempt - 1, handler)
      invariant DeliverFrom(s, 0, maxAttempts, handler, letterWritten)
             == DeliverFrom(state, attempt - 1, maxAttempts, handler, letterWritten)
      invariant forall n :: 0 < n < attempt ==> !Succeeds(s, n, handler)
    {
      var (next, done) := handler(state, attempt);
      state := next;
      if done {
        assert Succeeds(s, attempt, handler);
        return Delivery(state, Handled(attempt), attempt);
      }
      attempt := attempt + 1;
    }
    return Delivery(state, DeadLettered(maxAttempts, letterWritten), attempt - 1);
  }

  /** A decoded record is handled at the first attempt that succeeds and tried no further; if none
      of the allowed attempts does it is dead-lettered after all of them. */
  ghost predicate Retried<S>(s: S, maxAttempts: int, handler: (S, nat) -> (S, bool), letterWritten: bool,
                             d: Delivery<S>) {
    && d.state == AfterAttempts(s, d.calls, handler)
    && (d.calls == 0 || d.calls <= maxAttempts)
    && (forall n :: 0 < n < d.calls ==> !Succeeds(s, n, handler))
    && match d.fate
       case Handled(n) => n == d.calls && Succeeds(s, n, handler)
       case DeadLettered(n, written) =>
         && n == maxAttempts && written == letterWritten && !Succeeds(s, d.calls, handler)
         && d.calls == if maxAttempts > 0 then maxAttempts else 0
  }

  /** The contract leaves one outcome only: fate, number of calls and final state. */
  lemma OneFate<S>(s: S, maxAttempts: int, handler: (S, nat) -> (S, bool), w: bool, d: Delivery<S>, e: Delivery<S>)
    requires Retried(s, maxAttempts, handler, w, d) && Retried(s, maxAttempts, handler, w, e)
    ensures d == e
  {
    assert d.calls < e.calls ==> d.calls == 0 || !Succeeds(s, d.calls, handler);
    assert e.calls < d.calls ==> e.calls == 0 || !Succeeds(s, e.calls, handler);
  }
}
