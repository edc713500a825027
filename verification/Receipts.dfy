/** Decision receipts and what their digests commit to. */
module Receipts {
  import opened Text
  import opened Json
  import opened Canonical
  import opened Hex
  import opened Intents
  import Utf8

  datatype Reason = Reason(code: Str, severity: Severity, message: Str)
  datatype Simulation = Simulation(wouldRevert: bool, gasEstimate: Str, invariantIndex: Option<SafeInt>)
  datatype Execution = Execution(txHash: Str, gasUsed: Str, block: SafeInt)

  datatype Receipt = Receipt(
    intentId: Str, intentHash: Str, policyHash: Str, guard: Str, chainId: SafeInt, verdict: Verdict,
    reasons: seq<Reason>, simulation: Option<Simulation>, execution: Option<Execution>, at: Str)

  function VerdictText(v: Verdict): Str {
    match v
    case ALLOW => S("ALLOW")
    case HOLD => S("HOLD")
    case DENY => S("DENY")
  }

  function SeverityText(s: Severity): Str {
    match s
    case Hold => S("hold")
    case Deny => S("deny")
  }

  function ReasonJson(r: Reason): Json {
    Obj([Member(S("code"), Text(r.code)),
         Member(S("severity"), Text(SeverityText(r.severity))),
         Member(S("message"), Text(r.message))])
  }

  function ReasonsJson(rs: seq<Reason>): (r: seq<Json>)
    ensures |r| == |rs| && forall i :: 0 <= i < |r| ==> r[i] == ReasonJson(rs[i])
  {
    seq(|rs|, i requires 0 <= i < |rs| => ReasonJson(rs[i]))
  }

  function SimulationJson(s: Option<Simulation>): Json {
    match s
    case None => Null
    case Some(sim) =>
      Obj([Member(S("wouldRevert"), Bool(sim.wouldRevert)),
           Member(S("gasEstimate"), Text(sim.gasEstimate))]
          + match sim.invariantIndex
            case None => []
            case Some(n) => [Member(S("invariantIndex"), Num(n))])
  }

  function ExecutionJson(e: Option<Execution>): Json {
    match e
    case None => Null
    case Some(x) =>
      Obj([Member(S("txHash"), Text(x.txHash)),
           Member(S("gasUsed"), Text(x.gasUsed)),
           Member(S("block"), Num(x.block))])
  }

  /** The exact subset of a receipt that is hashed. */
  function DigestPayload(r: Receipt): Json {
    Obj([Member(S("intentId"), Text(r.intentId)),
         Member(S("intentHash"), Text(r.intentHash)),
         Member(S("policyHash"), Text(r.policyHash)),
         Member(S("guard"), Text(r.guard)),
         Member(S("chainId"), Num(r.chainId)),
         Member(S("verdict"), Text(VerdictText(r.verdict))),
         Member(S("reasons"), Arr(ReasonsJson(r.reasons))),
         Member(S("simulation"), SimulationJson(r.simulation)),
         Member(S("execution"), ExecutionJson(r.execution)),
         Member(S("at"), Text(r.at))])
  }

  /** The bytes hashed for a JSON value: UTF-8 of its canonical text. */
  function CanonicalBytes(v: Json): Bytes {
    Utf8.Encode(CanonicalText(v))
  }

  function HashJson(h: Hash, v: Json): Str {
    ToHex(h(CanonicalBytes(v)))
  }

  function ReceiptDigest(h: Hash, r: Receipt): Str {
    HashJson(h, DigestPayload(r))
  }

  // -------------------------------------------------- the payload is well formed

  function PayloadKeys(): seq<Str> {
    [S("intentId"), S("intentHash"), S("policyHash"), S("guard"), S("chainId"),
     S("verdict"), S("reasons"), S("simulation"), S("execution"), S("at")]
  }

  lemma PayloadKeysListed(r: Receipt)
    ensures |DigestPayload(r).members| == 10 && Keys(DigestPayload(r).members) == PayloadKeys()
  {
  }

  /** The keys of a payload differ in length or in their first letter. */
  lemma PayloadKeysUnique(r: Receipt)
    ensures UniqueKeys(DigestPayload(r).members)
  {
    PayloadKeysListed(r);
    var ks := PayloadKeys();
    var sizes := [8, 10, 10, 5, 7, 7, 7, 10, 9, 2];
    var firsts := ['i', 'i', 'p', 'g', 'c', 'v', 'r', 's', 'e', 'a'];
    forall i, j | 0 <= i < j < 10 ensures Keys(DigestPayload(r).members)[i] != Keys(DigestPayload(r).members)[j] {
      assert |ks[i]| == sizes[i] && |ks[j]| == sizes[j];
      assert ks[i][0] == firsts[i] as int && ks[j][0] == firsts[j] as int;
    }
  }

  lemma PayloadAt(r: Receipt, i: nat, m: Member)
    requires i < 10 && DigestPayload(r).members[i] == m
    ensures Field(DigestPayload(r).members, m.key) == Some(m.value)
  {
    PayloadKeysUnique(r);
    FindUnique(DigestPayload(r).members, i);
  }

  datatype PayloadPart =
    | IntentId | IntentHash | PolicyHash | Guard | ChainId | TheVerdict | Reasons | TheSimulation | TheExecution | At

  function PartKey(part: PayloadPart): Str {
    match part
    case IntentId => S("intentId")
    case IntentHash => S("intentHash")
    case PolicyHash => S("policyHash")
    case Guard => S("guard")
    case ChainId => S("chainId")
    case TheVerdict => S("verdict")
    case Reasons => S("reasons")
    case TheSimulation => S("simulation")
    case TheExecution => S("execution")
    case At => S("at")
  }

  function PartValue(r: Receipt, part: PayloadPart): Json {
    match part
    case IntentId => Text(r.intentId)
    case IntentHash => Text(r.intentHash)
    case PolicyHash => Text(r.policyHash)
    case Guard => Text(r.guard)
    case ChainId => Num(r.chainId)
    case TheVerdict => Text(VerdictText(r.verdict))
    case Reasons => Arr(ReasonsJson(r.reasons))
    case TheSimulation => SimulationJson(r.simulation)
    case TheExecution => ExecutionJson(r.execution)
    case At => Text(r.at)
  }

  /** What the payload carries under each of its ten keys. */
  lemma PayloadCarries(r: Receipt, part: PayloadPart)
    ensures |DigestPayload(r).members| == 10
    ensures Field(DigestPayload(r).members, PartKey(part)) == Some(PartValue(r, part))
  {
    var m := Member(PartKey(part), PartValue(r, part));
    match part
    case IntentId => PayloadAt(r, 0, m);
    case IntentHash => PayloadAt(r, 1, m);
    case PolicyHash => PayloadAt(r, 2, m);
    case Guard => PayloadAt(r, 3, m);
    case ChainId => PayloadAt(r, 4, m);
    case TheVerdict => PayloadAt(r, 5, m);
    case Reasons => PayloadAt(r, 6, m);
    case TheSimulation => PayloadAt(r, 7, m);
    case TheExecution => PayloadAt(r, 8, m);
    case At => PayloadAt(r, 9, m);
  }

  /** The same of a reason, a simulation and an execution. */
  lemma ReasonCarries(reason: Reason)
    ensures var ms := ReasonJson(reason).members;
      && Field(ms, S("code")) == Some(Text(reason.code)) && Field(ms, S("message")) == Some(Text(reason.message))
      && Field(ms, S("severity")) == Some(Text(if reason.severity == Deny then S("deny") else S("hold")))
  {
    var ms := ReasonJson(reason).members;
    assert |ms[0].key| == 4 && |ms[1].key| == 8 && |ms[2].key| == 7;
    FieldAt(ms, 0);
    FieldAt(ms, 1);
    FieldAt(ms, 2);
  }

  lemma SimulationCarries(sim: Simulation)
    ensures SimulationJson(None) == Null
    ensures var ms := SimulationJson(Some(sim)).members;
      && Field(ms, S("wouldRevert")) == Some(Bool(sim.wouldRevert))
      && Field(ms, S("gasEstimate")) == Some(Text(sim.gasEstimate))
      && Field(ms, S("invariantIndex")) ==
           match sim.invariantIndex
           case None => None
           case Some(n) => Some(Num(n))
  {
    var ms := SimulationJson(Some(sim)).members;
    assert ms[0].key[0] == 'w' as int && ms[1].key[0] == 'g' as int && S("invariantIndex")[0] == 'i' as int;
    FieldAt(ms, 0);
    FieldAt(ms, 1);
    match sim.invariantIndex
    case None => NoField(ms, S("invariantIndex"));
    case Some(_) => FieldAt(ms, 2);
  }

  lemma {:induction false} NoField(ms: seq<Member>, key: Str)
    requires forall i :: 0 <= i < |ms| ==> ms[i].key != key
    ensures Field(ms, key).None?
  {
    if ms != [] { NoField(ms[1..], key); }
  }

  lemma ExecutionCarries(x: Execution)
    ensures ExecutionJson(None) == Null
    ensures var ms := ExecutionJson(Some(x)).members;
      && Field(ms, S("txHash")) == Some(Text(x.txHash)) && Field(ms, S("gasUsed")) == Some(Text(x.gasUsed))
      && Field(ms, S("block")) == Some(Num(x.block))
  {
    var ms := ExecutionJson(Some(x)).members;
    assert ms[0].key[0] == 't' as int && ms[1].key[0] == 'g' as int && ms[2].key[0] == 'b' as int;
    FieldAt(ms, 0);
    FieldAt(ms, 1);
    FieldAt(ms, 2);
  }

  lemma ReasonWellFormed(r: Reason)
    ensures WellFormed(ReasonJson(r)) && Pure(ReasonJson(r))
  {
    var ms := ReasonJson(r).members;
    assert |ms[0].key| == 4 && |ms[1].key| == 8 && |ms[2].key| == 7;
  }

  lemma SimulationWellFormed(s: Option<Simulation>)
    ensures WellFormed(SimulationJson(s)) && Pure(SimulationJson(s))
  {
    if s.Some? {
      var ms := SimulationJson(s).members;
      assert ms[0].key[0] == 'w' as int && ms[1].key[0] == 'g' as int;
      assert s.value.invariantIndex.Some? ==> ms[2].key[0] == 'i' as int;
    }
  }

  lemma ExecutionWellFormed(e: Option<Execution>)
    ensures WellFormed(ExecutionJson(e)) && Pure(ExecutionJson(e))
  {
    if e.Some? {
      var ms := ExecutionJson(e).members;
      assert ms[0].key[0] == 't' as int && ms[1].key[0] == 'g' as int && ms[2].key[0] == 'b' as int;
    }
  }

  lemma PayloadWellFormed(r: Receipt)
    ensures WellFormed(DigestPayload(r)) && Pure(DigestPayload(r))
  {
    PayloadKeysUnique(r);
    forall i | 0 <= i < |r.reasons| ensures WellFormed(ReasonsJson(r.reasons)[i]) && Pure(ReasonsJson(r.reasons)[i]) {
      ReasonWellFormed(r.reasons[i]);
    }
    SimulationWellFormed(r.simulation);
    ExecutionWellFormed(r.execution);
  }

  // ----------------------------------------------------------- what Same means here

  /** Objects listing the same keys in the same order are the same member by member. */
  lemma SameAligned(ms: seq<Member>, ns: seq<Member>, k: nat)
    requires UniqueKeys(ns) && Keys(ms) == Keys(ns) && k < |ms|
    requires Same(Obj(ms), Obj(ns))
    ensures k < |ns| && Same(ms[k].value, ns[k].value)
  {
    assert |Keys(ms)| == |Keys(ns)| && Keys(ms)[k] == Keys(ns)[k];
    FindUnique(ns, k);
  }

  lemma ReasonInjective(r: Reason, q: Reason)
    requires Same(ReasonJson(r), ReasonJson(q))
    ensures r == q
  {
    ReasonWellFormed(q);
    var ms, ns := ReasonJson(r).members, ReasonJson(q).members;
    assert Keys(ms) == Keys(ns);
    SameAligned(ms, ns, 0);
    SameAligned(ms, ns, 1);
    SameAligned(ms, ns, 2);
    SeverityInjective(r.severity, q.severity);
  }

  lemma SeverityInjective(s: Severity, t: Severity)
    requires SeverityText(s) == SeverityText(t)
    ensures s == t
  {
    assert SeverityText(s)[0] == (if s.Hold? then 'h' else 'd') as int;
    assert SeverityText(t)[0] == (if t.Hold? then 'h' else 'd') as int;
  }

  lemma VerdictInjective(v: Verdict, w: Verdict)
    requires VerdictText(v) == VerdictText(w)
    ensures v == w
  {
    assert VerdictText(v)[0] == (match v case ALLOW => 'A' case HOLD => 'H' case DENY => 'D') as int;
    assert VerdictText(w)[0] == (match w case ALLOW => 'A' case HOLD => 'H' case DENY => 'D') as int;
  }

  lemma SimulationFields(s: Simulation, t: Simulation)
    requires s.invariantIndex.Some? == t.invariantIndex.Some?
    requires Same(SimulationJson(Some(s)), SimulationJson(Some(t)))
    ensures s == t
  {
    SimulationWellFormed(Some(t));
    var ms, ns := SimulationJson(Some(s)).members, SimulationJson(Some(t)).members;
    assert Keys(ms) == Keys(ns);
    SameAligned(ms, ns, 0);
    SameAligned(ms, ns, 1);
    if |ms| == 3 { SameAligned(ms, ns, 2); }
  }

  lemma SimulationInjective(s: Option<Simulation>, t: Option<Simulation>)
    requires Same(SimulationJson(s), SimulationJson(t))
    ensures s == t
  {
    if s.Some? && t.Some? {
      if s.value.invariantIndex.Some? == t.value.invariantIndex.Some? {
        SimulationFields(s.value, t.value);
      } else if s.value.invariantIndex.Some? {
        SimulationWellFormed(s);
        NoSameExtraMember(SimulationJson(s).members, SimulationJson(t).members);
      } else {
        SimulationWellFormed(t);
        NoSameExtraMember(SimulationJson(t).members, SimulationJson(s).members);
      }
    }
  }

  /** A third member under its own key has no counterpart among two others. */
  lemma NoSameExtraMember(ms: seq<Member>, ns: seq<Member>)
    requires |ms| == 3 && |ns| == 2 && UniqueKeys(ms) && ns[0].key == ms[0].key && ns[1].key == ms[1].key
    ensures !Same(Obj(ms), Obj(ns)) && !Same(Obj(ns), Obj(ms))
  {
    assert Find(ns, ms[2].key).None?;
  }

  lemma ExecutionInjective(e: Option<Execution>, f: Option<Execution>)
    requires Same(ExecutionJson(e), ExecutionJson(f))
    ensures e == f
  {
    if e.Some? && f.Some? {
      ExecutionWellFormed(f);
      var ms, ns := ExecutionJson(e).members, ExecutionJson(f).members;
      assert Keys(ms) == Keys(ns);
      SameAligned(ms, ns, 0);
      SameAligned(ms, ns, 1);
      SameAligned(ms, ns, 2);
    }
  }

  lemma ReasonsInjective(rs: seq<Reason>, qs: seq<Reason>)
    requires Same(Arr(ReasonsJson(rs)), Arr(ReasonsJson(qs)))
    ensures rs == qs
  {
    forall i | 0 <= i < |rs| ensures rs[i] == qs[i] {
      assert Same(ReasonsJson(rs)[i], ReasonsJson(qs)[i]);
      ReasonInjective(rs[i], qs[i]);
    }
  }

  lemma PayloadField(r: Receipt, q: Receipt, k: nat)
    requires Same(DigestPayload(r), DigestPayload(q)) && k < 10
    ensures Same(DigestPayload(r).members[k].value, DigestPayload(q).members[k].value)
  {
    PayloadKeysUnique(q);
    PayloadKeysListed(r);
    PayloadKeysListed(q);
    SameAligned(DigestPayload(r).members, DigestPayload(q).members, k);
  }

  lemma PayloadTexts(r: Receipt, q: Receipt)
    requires Same(DigestPayload(r), DigestPayload(q))
    ensures r.intentId == q.intentId && r.intentHash == q.intentHash
  {
    PayloadField(r, q, 0);
    PayloadField(r, q, 1);
  }

  lemma MorePayloadTexts(r: Receipt, q: Receipt)
    requires Same(DigestPayload(r), DigestPayload(q))
    ensures r.policyHash == q.policyHash && r.guard == q.guard && r.at == q.at
  {
    PayloadField(r, q, 2);
    PayloadField(r, q, 3);
    PayloadField(r, q, 9);
  }

  lemma PayloadChainAndVerdict(r: Receipt, q: Receipt)
    requires Same(DigestPayload(r), DigestPayload(q))
    ensures r.chainId == q.chainId && r.verdict == q.verdict
  {
    PayloadField(r, q, 4);
    PayloadField(r, q, 5);
    VerdictInjective(r.verdict, q.verdict);
  }

  /** Payloads that are the same JSON value come from the same receipt. */
  lemma PayloadInjective(r: Receipt, q: Receipt)
    requires Same(DigestPayload(r), DigestPayload(q))
    ensures r == q
  {
    PayloadTexts(r, q);
    MorePayloadTexts(r, q);
    PayloadChainAndVerdict(r, q);
    PayloadField(r, q, 6);
    PayloadField(r, q, 7);
    PayloadField(r, q, 8);
    ReasonsInjective(r.reasons, q.reasons);
    SimulationInjective(r.simulation, q.simulation);
    ExecutionInjective(r.execution, q.execution);
  }

  // ------------------------------------------------------------- main results

  /** The hash does not send these two byte strings to one digest unless they are equal. */
  ghost predicate NoCollision(h: Hash, a: Bytes, b: Bytes) {
    h(a) == h(b) ==> a == b
  }

  lemma HashJsonCommits(h: Hash, v: Json, w: Json)
    requires WellFormed(v) && Pure(v) && WellFormed(w) && Pure(w)
    requires NoCollision(h, CanonicalBytes(v), CanonicalBytes(w))
    ensures HashJson(h, v) == HashJson(h, w) <==> Same(v, w)
  {
    if HashJson(h, v) == HashJson(h, w) {
      ToHexIsDigest(h(CanonicalBytes(v)));
      ToHexIsDigest(h(CanonicalBytes(w)));
      Utf8.EmitWellFormed(Canon(v));
      Utf8.EmitWellFormed(Canon(w));
      Utf8.EncodeInjective(CanonicalText(v), CanonicalText(w));
      PureCanon(v);
      PureCanon(w);
      EmitInjective(Canon(v), Canon(w));
      CanonThenSame(v, w);
    }
    if Same(v, w) { SameThenCanon(v, w); }
  }

  /** A digest commits to every field of its receipt. */
  lemma ReceiptDigestCommits(h: Hash, r: Receipt, q: Receipt)
    requires NoCollision(h, CanonicalBytes(DigestPayload(r)), CanonicalBytes(DigestPayload(q)))
    ensures ReceiptDigest(h, r) == ReceiptDigest(h, q) <==> r == q
  {
    PayloadWellFormed(r);
    PayloadWellFormed(q);
    HashJsonCommits(h, DigestPayload(r), DigestPayload(q));
    if Same(DigestPayload(r), DigestPayload(q)) { PayloadInjective(r, q); }
  }

  /** A digest is a Merkle leaf: 0x and 64 lower-case digits. */
  lemma ReceiptDigestIsDigest(h: Hash, r: Receipt)
    ensures IsDigest(ReceiptDigest(h, r)) && Lower(ReceiptDigest(h, r)) == ReceiptDigest(h, r)
  {
    ToHexIsDigest(h(CanonicalBytes(DigestPayload(r))));
  }

  // ------------------------------------------------------------- intent hashes

  function CallReason(c: Call): Reason {
    Reason(c.target, Deny, c.value + [':' as int] + c.data)
  }

  function CallReasons(calls: seq<Call>): (r: seq<Reason>)
    ensures |r| == |calls| && forall i :: 0 <= i < |r| ==> r[i] == CallReason(calls[i])
  {
    seq(|calls|, i requires 0 <= i < |calls| => CallReason(calls[i]))
  }

  /** The pseudo-receipt whose digest is the intent hash. */
  function IntentReceipt(intent: Intent): Receipt {
    Receipt(intent.id, S("0x"), S("0x"), S("0x"), intent.chainId, ALLOW,
            CallReasons(intent.calls), None, None, intent.submittedAt)
  }

  function HashIntent(h: Hash, intent: Intent): Str {
    ReceiptDigest(h, IntentReceipt(intent))
  }

  /** What is hashed of an intent: its id, chain and time, and of every call, as a reason, the target
      and the value and data with a colon between; the rest of the payload is the same for all. */
  lemma IntentPayloadCarries(i: Intent, k: nat)
    requires k < |i.calls|
    ensures var r, c := IntentReceipt(i), i.calls[k];
      && PartValue(r, IntentId) == Text(i.id) && PartValue(r, ChainId) == Num(i.chainId)
      && PartValue(r, At) == Text(i.submittedAt) && PartValue(r, TheVerdict) == Text(S("ALLOW"))
      && PartValue(r, IntentHash) == PartValue(r, PolicyHash) == PartValue(r, Guard) == Text(S("0x"))
      && PartValue(r, TheSimulation) == PartValue(r, TheExecution) == Null
      && |r.reasons| == |i.calls|
      && var ms := ReasonJson(r.reasons[k]).members;
      && Field(ms, S("code")) == Some(Text(c.target)) && Field(ms, S("severity")) == Some(Text(S("deny")))
      && Field(ms, S("message")) == Some(Text(c.value + S(":") + c.data))
  {
    ReasonCarries(CallReason(i.calls[k]));
    assert S(":") == [':' as int];
  }

  /** A decimal, a colon and anything: the first colon ends the decimal. */
  lemma {:induction false} SplitAtColon(v: Str, d: Str, w: Str, e: Str)
    requires (forall i :: 0 <= i < |v| ==> IsDigit(v[i])) && (forall i :: 0 <= i < |w| ==> IsDigit(w[i]))
    requires v + ([':' as int] + d) == w + ([':' as int] + e)
    ensures v == w && d == e
  {
    var s, t := v + ([':' as int] + d), w + ([':' as int] + e);
    Parts(v, [':' as int] + d);
    Parts(w, [':' as int] + e);
    Parts([':' as int], d);
    Parts([':' as int], e);
    assert s[0] == t[0] && s[1..] == t[1..];
    if v != [] && w != [] {
      SplitAtColon(v[1..], d, w[1..], e);
      assert v == [v[0]] + v[1..] && w == [w[0]] + w[1..];
    }
  }

  lemma CallReasonInjective(c: Call, d: Call)
    requires CallReason(c) == CallReason(d)
    ensures c == d
  {
    Assoc(c.value, [':' as int], c.data);
    Assoc(d.value, [':' as int], d.data);
    SplitAtColon(c.value, c.data, d.value, d.data);
  }

  /** The intent hash determines id, chain, submission time and the exact call list, and nothing
      else: the rationale does not enter it, and neither do the invariants. */
  lemma IntentHashCommits(h: Hash, i: Intent, j: Intent)
    requires NoCollision(h, CanonicalBytes(DigestPayload(IntentReceipt(i))),
                         CanonicalBytes(DigestPayload(IntentReceipt(j))))
    ensures HashIntent(h, i) == HashIntent(h, j)
       <==> i.id == j.id && i.chainId == j.chainId && i.submittedAt == j.submittedAt && i.calls == j.calls
  {
    ReceiptDigestCommits(h, IntentReceipt(i), IntentReceipt(j));
    if HashIntent(h, i) == HashIntent(h, j) {
      assert CallReasons(i.calls) == CallReasons(j.calls);
      assert |i.calls| == |j.calls|;
      forall k | 0 <= k < |i.calls| ensures i.calls[k] == j.calls[k] {
        assert CallReasons(i.calls)[k] == CallReasons(j.calls)[k];
        CallReasonInjective(i.calls[k], j.calls[k]);
      }
    }
  }
}
