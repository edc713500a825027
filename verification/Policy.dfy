/** The policy VM: eleven pure rules, an evaluator that collects what they raise, and the safety of
    the sliding window over whole runs. */
module Policy {
  import opened Text
  import opened Json
  import opened Intents
  import opened HexNumbers
  import Sorting

  // ------------------------------------------------------------------ data

  datatype Targets = Targets(allow: seq<Str>, selectors: map<Str, seq<Str>>)

  datatype Limits = Limits(
    maxNativeValuePerIntent: Decimal, maxNativeValuePerWindow: Decimal,
    windowSeconds: nat, maxIntentsPerWindow: nat, maxGas: Decimal)

  datatype HoldAbove = HoldAbove(nativeValue: Decimal, unknownCounterparty: bool)

  /** UTC hours, start inclusive and end exclusive. */
  datatype Schedule = Schedule(start: nat, end: nat)

  datatype Policy = Policy(
    name: Str, chains: seq<SafeInt>, targets: Targets, limits: Limits, holdAbove: HoldAbove,
    schedule: Option<Schedule>, maxApproval: Decimal, minInvariants: nat)

  /** A prior decision; `at` in milliseconds, None for a time that cannot be read. */
  datatype Past = Past(at: Option<int>, verdict: Verdict, nativeValue: Decimal)

  datatype Context = Context(now: int, history: seq<Past>, gasEstimate: Option<Decimal>, known: seq<Str>)

  datatype Code =
    | CHAIN_NOT_ALLOWED | TARGET_NOT_ALLOWED | SELECTOR_NOT_ALLOWED | VALUE_CAP_EXCEEDED
    | RATE_LIMIT_EXCEEDED | WINDOW_VALUE_EXCEEDED | OUTSIDE_SCHEDULE | APPROVAL_TOO_LARGE
    | GAS_CEILING_EXCEEDED | TOO_FEW_INVARIANTS | HOLD_LARGE_VALUE | HOLD_UNKNOWN_COUNTERPARTY

  /** A reason, without its prose; `call` is the index of the call it is about. */
  datatype Finding = Finding(code: Code, severity: Severity, call: Option<nat>)

  datatype Decision = Decision(verdict: Verdict, reasons: seq<Finding>)

  /** None stands for an exception. */
  type Rule = (Intent, Policy, Context) -> Option<seq<Finding>>

  // --------------------------------------------------------------- helpers

  function SelectorOf(data: Str): Str { if |data| >= 10 then Lower(data[..10]) else S("0x") }

  datatype Approval = NotApproval | Unreadable | Approves(amount: nat)

  /** The amount argument of approve(address,uint256). */
  function ApprovalAmount(data: Str): Approval {
    if SelectorOf(data) != S("0x095ea7b3") || |data| < 138 then NotApproval
    else match HexNumber(data[74..138], 0)
      case None => Unreadable
      case Some(n) => Approves(n)
  }

  function Denial(c: Code): seq<Finding> { [Finding(c, Deny, None)] }

  /** The flatMap over the calls of an intent. */
  function PerCall(calls: seq<Call>, i: nat, f: (Call, nat) -> seq<Finding>): seq<Finding>
    requires i <= |calls|
    decreases |calls| - i
  {
    if i == |calls| then [] else f(calls[i], i) + PerCall(calls, i + 1, f)
  }

  function SelectorEntry(t: Targets, target: Str): Option<seq<Str>> {
    if Lower(target) in t.selectors then Some(t.selectors[Lower(target)])
    else if target in t.selectors then Some(t.selectors[target])
    else None
  }

  function LowerSet(ss: seq<Str>): set<Str> { set s | s in ss :: Lower(s) }

  function Cutoff(p: Policy, now: int): int { now - p.limits.windowSeconds * 1000 }

  predicate CountsFrom(h: Past, cutoff: int) { h.verdict != DENY && h.at.Some? && h.at.value >= cutoff }

  function Recent(history: seq<Past>, cutoff: int): seq<Past> {
    if history == [] then []
    else
      Recent(history[..|history| - 1], cutoff)
      + if CountsFrom(history[|history| - 1], cutoff) then [history[|history| - 1]] else []
  }

  function Spent(history: seq<Past>): nat {
    if history == [] then 0 else Spent(history[..|history| - 1]) + Big(history[|history| - 1].nativeValue)
  }

  // ----------------------------------------------------------------- rules

  function ChainAllowed(i: Intent, p: Policy, c: Context): Option<seq<Finding>> {
    Some(if i.chainId in p.chains then [] else Denial(CHAIN_NOT_ALLOWED))
  }

  function TargetFinding(t: Targets, call: Call, k: nat): seq<Finding> {
    if Lower(call.target) in LowerSet(t.allow) then [] else [Finding(TARGET_NOT_ALLOWED, Deny, Some(k))]
  }

  function TargetFindings(t: Targets): (Call, nat) -> seq<Finding> { (call, k: nat) => TargetFinding(t, call, k) }

  function TargetAllowlist(i: Intent, p: Policy, c: Context): Option<seq<Finding>> {
    Some(PerCall(i.calls, 0, TargetFindings(p.targets)))
  }

  function SelectorFinding(t: Targets, call: Call, k: nat): seq<Finding> {
    match SelectorEntry(t, call.target)
    case None => []
    case Some(entry) =>
      if S("*") in entry || SelectorOf(call.data) in LowerSet(entry) then []
      else [Finding(SELECTOR_NOT_ALLOWED, Deny, Some(k))]
  }

  function SelectorFindings(t: Targets): (Call, nat) -> seq<Finding> { (call, k: nat) => SelectorFinding(t, call, k) }

  function SelectorAllowlist(i: Intent, p: Policy, c: Context): Option<seq<Finding>> {
    Some(PerCall(i.calls, 0, SelectorFindings(p.targets)))
  }

  function ValueCap(i: Intent, p: Policy, c: Context): Option<seq<Finding>> {
    Some(if SumValues(i.calls) <= Big(p.limits.maxNativeValuePerIntent) then [] else Denial(VALUE_CAP_EXCEEDED))
  }

  function WindowedLimits(i: Intent, p: Policy, c: Context): Option<seq<Finding>> {
    var recent := Recent(c.history, Cutoff(p, c.now));
    Some((if |recent| + 1 > p.limits.maxIntentsPerWindow then Denial(RATE_LIMIT_EXCEEDED) else [])
         + (if Spent(recent) + SumValues(i.calls) > Big(p.limits.maxNativeValuePerWindow)
            then Denial(WINDOW_VALUE_EXCEEDED) else []))
  }

  function HourUtc(now: int): nat { now / 3600000 % 24 }

  predicate Inside(s: Schedule, hour: nat) {
    if s.start <= s.end then s.start <= hour < s.end else hour >= s.start || hour < s.end
  }

  function ScheduleWindow(i: Intent, p: Policy, c: Context): Option<seq<Finding>> {
    Some(match p.schedule
         case None => []
         case Some(s) => if Inside(s, HourUtc(c.now)) then [] else Denial(OUTSIDE_SCHEDULE))
  }

  function ApprovalFinding(max: Decimal, call: Call, k: nat): seq<Finding> {
    match ApprovalAmount(call.data)
    case Approves(amount) =>
      if amount <= Big(max) then [] else [Finding(APPROVAL_TOO_LARGE, Deny, Some(k))]
    case _ => []
  }

  function ApprovalFindings(max: Decimal): (Call, nat) -> seq<Finding> {
    (call, k: nat) => ApprovalFinding(max, call, k)
  }

  predicate ApprovalsReadable(i: Intent) { forall c :: c in i.calls ==> ApprovalAmount(c.data) != Unreadable }

  function ApprovalBound(i: Intent, p: Policy, c: Context): Option<seq<Finding>> {
    if ApprovalsReadable(i) then Some(PerCall(i.calls, 0, ApprovalFindings(p.maxApproval))) else None
  }

  function GasCeiling(i: Intent, p: Policy, c: Context): Option<seq<Finding>> {
    Some(match c.gasEstimate
         case None => []
         case Some(gas) => if Big(gas) <= Big(p.limits.maxGas) then [] else Denial(GAS_CEILING_EXCEEDED))
  }

  function InvariantsRequired(i: Intent, p: Policy, c: Context): Option<seq<Finding>> {
    Some(if |i.invariants| >= p.minInvariants then [] else Denial(TOO_FEW_INVARIANTS))
  }

  function HoldOnLargeValue(i: Intent, p: Policy, c: Context): Option<seq<Finding>> {
    Some(if SumValues(i.calls) < Big(p.holdAbove.nativeValue) then [] else [Finding(HOLD_LARGE_VALUE, Hold, None)])
  }

  /** No earlier call has the target of call k. */
  predicate FirstTo(calls: seq<Call>, k: nat)
    requires k < |calls|
  {
    forall j :: 0 <= j < k ==> Lower(calls[j].target) != Lower(calls[k].target)
  }

  /** One finding per unknown target, at its first call. */
  function Strangers(calls: seq<Call>, known: seq<Str>, n: nat): seq<Finding>
    requires n <= |calls|
  {
    if n == 0 then []
    else
      Strangers(calls, known, n - 1)
      + if Lower(calls[n - 1].target) !in LowerSet(known) && FirstTo(calls, n - 1)
        then [Finding(HOLD_UNKNOWN_COUNTERPARTY, Hold, Some(n - 1))] else []
  }

  function HoldOnUnknownCounterparty(i: Intent, p: Policy, c: Context): Option<seq<Finding>> {
    Some(if p.holdAbove.unknownCounterparty then Strangers(i.calls, c.known, |i.calls|) else [])
  }

  /** The rule as it runs: a set of targets seen, extended at every report. */
  method FindStrangers(calls: seq<Call>, known: seq<Str>) returns (found: seq<Finding>)
    ensures found == Strangers(calls, known, |calls|)
  {
    found := [];
    var seen: set<Str> := {};
    var k := 0;
    while k < |calls|
      invariant k <= |calls|
      invariant found == Strangers(calls, known, k)
      invariant forall t :: t in seen <==>
        t !in LowerSet(known) && exists j :: 0 <= j < k && Lower(calls[j].target) == t
    {
      var target := Lower(calls[k].target);
      if target !in LowerSet(known) && target !in seen {
        seen := seen + {target};
        found := found + [Finding(HOLD_UNKNOWN_COUNTERPARTY, Hold, Some(k))];
      }
      k := k + 1;
    }
  }

  const ALL_RULES: seq<Rule> := [
    ChainAllowed, TargetAllowlist, SelectorAllowlist, ValueCap, WindowedLimits, ScheduleWindow,
    ApprovalBound, GasCeiling, InvariantsRequired, HoldOnLargeValue, HoldOnUnknownCounterparty]

  // ------------------------------------------------------------- evaluation

  /** Everything the rules raise, in rule order, unless one of them throws. */
  function Collect(rules: seq<Rule>, i: Intent, p: Policy, c: Context): Option<seq<Finding>> {
    if rules == [] then Some([])
    else match (Collect(rules[..|rules| - 1], i, p, c), rules[|rules| - 1](i, p, c))
      case (Some(fs), Some(more)) => Some(fs + more)
      case _ => None
  }

  predicate Has(fs: seq<Finding>, s: Severity) { exists k :: 0 <= k < |fs| && fs[k].severity == s }

  function Select(fs: seq<Finding>, s: Severity): seq<Finding> {
    if fs == [] then [] else (if fs[0].severity == s then [fs[0]] else []) + Select(fs[1..], s)
  }

  function VerdictOf(fs: seq<Finding>): Verdict {
    if Has(fs, Deny) then DENY else if Has(fs, Hold) then HOLD else ALLOW
  }

  /** Denials first, then holds, each in rule order. */
  function Decide(rules: seq<Rule>, i: Intent, p: Policy, c: Context): Option<Decision> {
    match Collect(rules, i, p, c)
    case None => None
    case Some(fs) => Some(Decision(VerdictOf(fs), Select(fs, Deny) + Select(fs, Hold)))
  }

  /** The comparator of the final sort. */
  predicate DenyFirst(a: Finding, b: Finding) { a.severity == Deny && b.severity == Hold }

  lemma HeadMoves(x: Finding, ds: seq<Finding>, hs: seq<Finding>)
    requires ds != []
    ensures [ds[0]] + (ds[1..] + [x] + hs) == ds + [x] + hs
  {
  }

  lemma {:induction false} InsertDenial(x: Finding, ds: seq<Finding>, hs: seq<Finding>)
    requires forall k :: 0 <= k < |ds| ==> ds[k].severity == Deny
    requires forall k :: 0 <= k < |hs| ==> hs[k].severity == Hold
    ensures Sorting.Insert(DenyFirst, x, ds + hs) == if x.severity == Deny then [x] + ds + hs else ds + [x] + hs
  {
    Parts(ds, hs);
    if x.severity == Deny {
      Assoc([x], ds, hs);
    } else if ds != [] {
      InsertDenial(x, ds[1..], hs);
      HeadMoves(x, ds, hs);
    } else {
      Parts([], [x] + hs);
    }
  }

  /** The stable sort is the partition by severity. */
  lemma {:induction false} SortPartitions(fs: seq<Finding>)
    ensures Sorting.Sort(DenyFirst, fs) == Select(fs, Deny) + Select(fs, Hold)
  {
    if fs != [] {
      SortPartitions(fs[1..]);
      AllSelected(fs[1..], Deny);
      AllSelected(fs[1..], Hold);
      InsertDenial(fs[0], Select(fs[1..], Deny), Select(fs[1..], Hold));
      if fs[0].severity == Hold {
        assert Select(fs, Deny) == Select(fs[1..], Deny);
        Assoc(Select(fs[1..], Deny), [fs[0]], Select(fs[1..], Hold));
      } else {
        assert Select(fs, Hold) == Select(fs[1..], Hold);
      }
    }
  }

  lemma {:induction false} AllSelected(fs: seq<Finding>, s: Severity)
    ensures forall k :: 0 <= k < |Select(fs, s)| ==> Select(fs, s)[k].severity == s
  {
    if fs != [] { AllSelected(fs[1..], s); }
  }

  method Evaluate(i: Intent, p: Policy, c: Context, rules: seq<Rule>) returns (d: Option<Decision>)
    ensures d == Decide(rules, i, p, c)
  {
    var reasons: seq<Finding> := [];
    var k := 0;
    while k < |rules|
      invariant k <= |rules|
      invariant Collect(rules[..k], i, p, c) == Some(reasons)
    {
      assert rules[..k + 1][..k] == rules[..k];
      match rules[k](i, p, c) {
        case None =>
          ThrownStays(rules, k + 1, i, p, c);
          return None;
        case Some(more) => reasons := reasons + more;
      }
      k := k + 1;
    }
    assert rules[..k] == rules;
    SortPartitions(reasons);
    return Some(Decision(VerdictOf(reasons), Sorting.Sort(DenyFirst, reasons)));
  }

  lemma {:induction false} ThrownStays(rules: seq<Rule>, k: nat, i: Intent, p: Policy, c: Context)
    requires k <= |rules| && Collect(rules[..k], i, p, c).None?
    ensures Collect(rules, i, p, c).None?
  {
    if k == |rules| {
      assert rules[..k] == rules;
    } else {
      assert rules[..|rules| - 1][..k] == rules[..k];
      ThrownStays(rules[..|rules| - 1], k, i, p, c);
    }
  }

  // --------------------------------------------------------- what a verdict means

  ghost predicate Raises(r: Rule, i: Intent, p: Policy, c: Context, s: Severity) {
    r(i, p, c).Some? && Has(r(i, p, c).value, s)
  }

  ghost predicate Anyone(rules: seq<Rule>, i: Intent, p: Policy, c: Context, s: Severity) {
    exists k :: 0 <= k < |rules| && Raises(rules[k], i, p, c, s)
  }

  lemma HasConcat(a: seq<Finding>, b: seq<Finding>, s: Severity)
    ensures Has(a + b, s) <==> Has(a, s) || Has(b, s)
  {
    if k :| 0 <= k < |a| && a[k].severity == s { assert (a + b)[k].severity == s; }
    if k :| 0 <= k < |b| && b[k].severity == s { assert (a + b)[|a| + k].severity == s; }
    if k :| 0 <= k < |a + b| && (a + b)[k].severity == s {
      if k < |a| { assert a[k].severity == s; } else { assert b[k - |a|].severity == s; }
    }
  }

  lemma {:induction false} CollectMeans(rules: seq<Rule>, i: Intent, p: Policy, c: Context, s: Severity)
    requires forall k :: 0 <= k < |rules| ==> rules[k](i, p, c).Some?
    ensures Collect(rules, i, p, c).Some?
    ensures Has(Collect(rules, i, p, c).value, s) <==> Anyone(rules, i, p, c, s)
  {
    if rules != [] {
      var init, last := rules[..|rules| - 1], rules[|rules| - 1];
      CollectMeans(init, i, p, c, s);
      HasConcat(Collect(init, i, p, c).value, last(i, p, c).value, s);
      if k :| 0 <= k < |init| && Raises(init[k], i, p, c, s) { assert Raises(rules[k], i, p, c, s); }
      if Raises(last, i, p, c, s) { assert rules[|rules| - 1] == last; }
      if k :| 0 <= k < |rules| && Raises(rules[k], i, p, c, s) {
        if k < |init| { assert Raises(init[k], i, p, c, s); }
      }
    }
  }

  lemma {:induction false} PerCallMeans(calls: seq<Call>, i: nat, f: (Call, nat) -> seq<Finding>, s: Severity)
    requires i <= |calls|
    ensures Has(PerCall(calls, i, f), s) <==> exists k :: i <= k < |calls| && Has(f(calls[k], k), s)
    decreases |calls| - i
  {
    if i < |calls| {
      PerCallMeans(calls, i + 1, f, s);
      HasConcat(f(calls[i], i), PerCall(calls, i + 1, f), s);
    }
  }

  ghost predicate TargetPermitted(p: Policy, target: Str) {
    exists a :: a in p.targets.allow && Lower(a) == Lower(target)
  }

  /** Call data starts with this selector; data too short for one has the empty selector. */
  predicate Selects(s: Str, data: Str) { Lower(s) == if |data| < 10 then S("0x") else Lower(data)[..10] }

  /** A list of selectors admits the call data. */
  ghost predicate Admits(entry: seq<Str>, data: Str) { S("*") in entry || exists s :: s in entry && Selects(s, data) }

  /** Every list kept for the address that is called, however its key is spelled, admits the call. */
  ghost predicate SelectorPermitted(p: Policy, call: Call) {
    forall key :: key in p.targets.selectors && Lower(key) == Lower(call.target) ==>
      Admits(p.targets.selectors[key], call.data)
  }

  /** The list under this key binds calls that spell their target like this: the key is the
      lower-case address, or it is spelled like the target and no lower-case key goes before it. */
  predicate Binds(t: Targets, key: Str, target: Str) {
    Lower(key) == Lower(target) && (key == Lower(key) || (key == target && Lower(key) !in t.selectors))
  }

  ghost predicate SelectorEnforced(p: Policy, call: Call) {
    forall key :: key in p.targets.selectors && Binds(p.targets, key, call.target) ==>
      Admits(p.targets.selectors[key], call.data)
  }

  /** Word k of the arguments that follow a selector. */
  function Word(data: Str, k: nat): Str
    requires |data| >= 10 + 64 * (k + 1)
  {
    data[10 + 64 * k..10 + 64 * (k + 1)]
  }

  /** Calldata of approve(address,uint256), with both its arguments. */
  predicate Approving(data: Str) { |data| >= 138 && Lower(data[..10]) == S("0x095ea7b3") }

  /** Calldata that approves this amount: the second argument writes it. */
  predicate ApprovesAmount(data: Str, n: nat) { Approving(data) && Writes(Word(data, 1), n) }

  ghost predicate ApprovalPermitted(p: Policy, call: Call) {
    forall n: nat :: ApprovesAmount(call.data, n) ==> n <= Big(p.maxApproval)
  }

  /** What is read from calldata is what it approves, and a reading fails exactly on an amount that is
      no number. */
  lemma AmountReads(data: Str)
    ensures ApprovalAmount(data) == NotApproval <==> !Approving(data)
    ensures forall n: nat :: ApprovalAmount(data) == Approves(n) <==> ApprovesAmount(data, n)
  {
    if Approving(data) {
      forall n: nat ensures ApprovalAmount(data) == Approves(n) <==> ApprovesAmount(data, n) {
        WordReads(Word(data, 1), n);
      }
    }
  }

  /** Calldata put together from its parts. */
  lemma ApprovalBuilt(selector: Str, spender: Str, word: Str, tail: Str, n: nat)
    requires |selector| == 10 && Lower(selector) == S("0x095ea7b3") && |spender| == 64 && |word| == 64
    ensures ApprovesAmount(selector + spender + word + tail, n) <==> Writes(word, n)
  {
    var data := selector + spender + word + tail;
    assert data[..10] == selector && Word(data, 1) == word;
  }

  /** The hard limits of a policy other than that on selectors, stated without its rules. */
  ghost predicate WithinLimits(i: Intent, p: Policy, c: Context) {
    var recent := Recent(c.history, Cutoff(p, c.now));
    && i.chainId in p.chains
    && (forall call :: call in i.calls ==> TargetPermitted(p, call.target) && ApprovalPermitted(p, call))
    && SumValues(i.calls) <= Big(p.limits.maxNativeValuePerIntent)
    && |recent| + 1 <= p.limits.maxIntentsPerWindow
    && Spent(recent) + SumValues(i.calls) <= Big(p.limits.maxNativeValuePerWindow)
    && (p.schedule.Some? ==> Inside(p.schedule.value, HourUtc(c.now)))
    && (c.gasEstimate.Some? ==> Big(c.gasEstimate.value) <= Big(p.limits.maxGas))
    && |i.invariants| >= p.minInvariants
  }

  ghost predicate SelectorsPermitted(i: Intent, p: Policy) {
    forall call :: call in i.calls ==> SelectorPermitted(p, call)
  }

  ghost predicate SelectorsEnforced(i: Intent, p: Policy) {
    forall call :: call in i.calls ==> SelectorEnforced(p, call)
  }

  /** All hard limits, addresses compared up to letter case as everywhere else. */
  ghost predicate Permitted(i: Intent, p: Policy, c: Context) { WithinLimits(i, p, c) && SelectorsPermitted(i, p) }

  /** All hard limits, except that a list of selectors binds only the spellings of its address that
      lead to it. */
  ghost predicate Enforced(i: Intent, p: Policy, c: Context) { WithinLimits(i, p, c) && SelectorsEnforced(i, p) }

  ghost predicate KnownTarget(c: Context, target: Str) { exists a :: a in c.known && Lower(a) == Lower(target) }

  /** Nothing that a human has to look at. */
  ghost predicate Routine(i: Intent, p: Policy, c: Context) {
    && SumValues(i.calls) < Big(p.holdAbove.nativeValue)
    && (p.holdAbove.unknownCounterparty ==> forall call :: call in i.calls ==> KnownTarget(c, call.target))
  }

  lemma TargetRule(i: Intent, p: Policy, c: Context)
    ensures Raises(TargetAllowlist, i, p, c, Deny)
      <==> exists k :: 0 <= k < |i.calls| && !TargetPermitted(p, i.calls[k].target)
    ensures !Raises(TargetAllowlist, i, p, c, Hold)
  {
    var f := TargetFindings(p.targets);
    PerCallMeans(i.calls, 0, f, Deny);
    PerCallMeans(i.calls, 0, f, Hold);
    forall k | 0 <= k < |i.calls| ensures Has(f(i.calls[k], k), Deny) <==> !TargetPermitted(p, i.calls[k].target) {
      assert f(i.calls[k], k) != [] ==> f(i.calls[k], k)[0].severity == Deny;
    }
  }

  lemma SelectorSelects(data: Str)
    ensures forall s :: Selects(s, data) <==> Lower(s) == SelectorOf(data)
  {
    if |data| >= 10 { assert Lower(data)[..10] == Lower(data[..10]); }
  }

  /** The rule holds a call to exactly the list that binds the spelling of its target. */
  lemma SelectorFound(p: Policy, call: Call, n: nat)
    ensures SelectorFinding(p.targets, call, n)
         == if SelectorEnforced(p, call) then [] else [Finding(SELECTOR_NOT_ALLOWED, Deny, Some(n))]
  {
    var t, low := p.targets, Lower(call.target);
    LowerTwice(call.target);
    SelectorSelects(call.data);
    assert low in t.selectors ==> Binds(t, low, call.target);
    assert low !in t.selectors && call.target in t.selectors ==> Binds(t, call.target, call.target);
  }

  lemma SelectorRule(i: Intent, p: Policy, c: Context)
    ensures Raises(SelectorAllowlist, i, p, c, Deny)
      <==> exists k :: 0 <= k < |i.calls| && !SelectorEnforced(p, i.calls[k])
    ensures !Raises(SelectorAllowlist, i, p, c, Hold)
  {
    var f := SelectorFindings(p.targets);
    PerCallMeans(i.calls, 0, f, Deny);
    PerCallMeans(i.calls, 0, f, Hold);
    forall k | 0 <= k < |i.calls| ensures Has(f(i.calls[k], k), Deny) <==> !SelectorEnforced(p, i.calls[k]) {
      SelectorFound(p, i.calls[k], k);
      assert f(i.calls[k], k) != [] ==> f(i.calls[k], k)[0].severity == Deny;
    }
  }

  /** A call that approves too much is reported, and no other. */
  lemma ApprovalFound(p: Policy, call: Call, n: nat)
    requires ApprovalAmount(call.data) != Unreadable
    ensures ApprovalFinding(p.maxApproval, call, n)
         == if ApprovalPermitted(p, call) then [] else [Finding(APPROVAL_TOO_LARGE, Deny, Some(n))]
  {
    AmountReads(call.data);
    match ApprovalAmount(call.data)
    case Approves(m) => assert ApprovesAmount(call.data, m);
    case _ =>
  }

  lemma ApprovalRule(i: Intent, p: Policy, c: Context)
    requires ApprovalsReadable(i)
    ensures Raises(ApprovalBound, i, p, c, Deny)
      <==> exists k :: 0 <= k < |i.calls| && !ApprovalPermitted(p, i.calls[k])
    ensures !Raises(ApprovalBound, i, p, c, Hold)
  {
    var f := ApprovalFindings(p.maxApproval);
    PerCallMeans(i.calls, 0, f, Deny);
    PerCallMeans(i.calls, 0, f, Hold);
    forall k | 0 <= k < |i.calls| ensures Has(f(i.calls[k], k), Deny) <==> !ApprovalPermitted(p, i.calls[k]) {
      ApprovalFound(p, i.calls[k], k);
      assert f(i.calls[k], k) != [] ==> f(i.calls[k], k)[0].severity == Deny;
    }
  }

  lemma HasNoDenial(fs: seq<Finding>, k: nat)
    requires !Has(fs, Deny)
    ensures !Has(fs + [Finding(HOLD_UNKNOWN_COUNTERPARTY, Hold, Some(k))], Deny) && fs + [] == fs
  {
    HasConcat(fs, [Finding(HOLD_UNKNOWN_COUNTERPARTY, Hold, Some(k))], Deny);
  }

  lemma {:induction false} StrangersMean(calls: seq<Call>, known: seq<Str>, n: nat)
    requires n <= |calls|
    ensures Strangers(calls, known, n) == [] <==> forall k :: 0 <= k < n ==> Lower(calls[k].target) in LowerSet(known)
    ensures !Has(Strangers(calls, known, n), Deny)
  {
    if n > 0 {
      StrangersMean(calls, known, n - 1);
      HasNoDenial(Strangers(calls, known, n - 1), n - 1);
      if Lower(calls[n - 1].target) !in LowerSet(known) && !FirstTo(calls, n - 1) {
        var j :| 0 <= j < n - 1 && Lower(calls[j].target) == Lower(calls[n - 1].target);
      }
    }
  }

  /** A reason about an unknown counterparty names the first call to it. */
  lemma {:induction false} StrangersNamed(calls: seq<Call>, known: seq<Str>, n: nat, k: nat)
    requires n <= |calls|
    ensures Finding(HOLD_UNKNOWN_COUNTERPARTY, Hold, Some(k)) in Strangers(calls, known, n) <==>
      && k < n && (forall a :: a in known ==> Lower(a) != Lower(calls[k].target))
      && (forall j :: 0 <= j < k ==> Lower(calls[j].target) != Lower(calls[k].target))
  {
    if n > 0 { StrangersNamed(calls, known, n - 1, k); }
  }

  lemma StrangerRule(i: Intent, p: Policy, c: Context)
    ensures Raises(HoldOnUnknownCounterparty, i, p, c, Hold) <==>
      p.holdAbove.unknownCounterparty && exists k :: 0 <= k < |i.calls| && !KnownTarget(c, i.calls[k].target)
    ensures !Raises(HoldOnUnknownCounterparty, i, p, c, Deny)
  {
    StrangersMean(i.calls, c.known, |i.calls|);
    var fs := Strangers(i.calls, c.known, |i.calls|);
    assert fs != [] ==> fs[0].severity == Hold;
  }

  lemma DenyOrNothing(code: Code)
    ensures Has(Denial(code), Deny) && !Has(Denial(code), Hold)
  {
    assert Denial(code)[0].severity == Deny;
  }

  lemma ChainAndValueRules(i: Intent, p: Policy, c: Context)
    ensures Raises(ChainAllowed, i, p, c, Deny) <==> i.chainId !in p.chains
    ensures Raises(ValueCap, i, p, c, Deny) <==> SumValues(i.calls) > Big(p.limits.maxNativeValuePerIntent)
    ensures !Raises(ChainAllowed, i, p, c, Hold) && !Raises(ValueCap, i, p, c, Hold)
  {
    DenyOrNothing(CHAIN_NOT_ALLOWED);
    DenyOrNothing(VALUE_CAP_EXCEEDED);
  }

  lemma ContextRules(i: Intent, p: Policy, c: Context)
    ensures Raises(ScheduleWindow, i, p, c, Deny) <==> p.schedule.Some? && !Inside(p.schedule.value, HourUtc(c.now))
    ensures Raises(GasCeiling, i, p, c, Deny)
      <==> c.gasEstimate.Some? && Big(c.gasEstimate.value) > Big(p.limits.maxGas)
    ensures Raises(InvariantsRequired, i, p, c, Deny) <==> |i.invariants| < p.minInvariants
    ensures !Raises(ScheduleWindow, i, p, c, Hold) && !Raises(GasCeiling, i, p, c, Hold)
    ensures !Raises(InvariantsRequired, i, p, c, Hold)
  {
    DenyOrNothing(OUTSIDE_SCHEDULE);
    DenyOrNothing(GAS_CEILING_EXCEEDED);
    DenyOrNothing(TOO_FEW_INVARIANTS);
  }

  lemma LargeValueRule(i: Intent, p: Policy, c: Context)
    ensures Raises(HoldOnLargeValue, i, p, c, Hold) <==> SumValues(i.calls) >= Big(p.holdAbove.nativeValue)
    ensures !Raises(HoldOnLargeValue, i, p, c, Deny)
  {
    assert [Finding(HOLD_LARGE_VALUE, Hold, None)][0].severity == Hold;
  }

  lemma WindowRule(i: Intent, p: Policy, c: Context)
    ensures var recent := Recent(c.history, Cutoff(p, c.now));
      Raises(WindowedLimits, i, p, c, Deny) <==>
      || |recent| + 1 > p.limits.maxIntentsPerWindow
      || Spent(recent) + SumValues(i.calls) > Big(p.limits.maxNativeValuePerWindow)
    ensures !Raises(WindowedLimits, i, p, c, Hold)
  {
    var recent := Recent(c.history, Cutoff(p, c.now));
    var rate := if |recent| + 1 > p.limits.maxIntentsPerWindow then Denial(RATE_LIMIT_EXCEEDED) else [];
    var value := if Spent(recent) + SumValues(i.calls) > Big(p.limits.maxNativeValuePerWindow)
                 then Denial(WINDOW_VALUE_EXCEEDED) else [];
    assert WindowedLimits(i, p, c) == Some(rate + value);
    DenyOrNothing(RATE_LIMIT_EXCEEDED);
    DenyOrNothing(WINDOW_VALUE_EXCEEDED);
    HasConcat(rate, value, Deny);
    HasConcat(rate, value, Hold);
  }

  lemma RuleList()
    ensures |ALL_RULES| == 11
    ensures ALL_RULES[0] == ChainAllowed && ALL_RULES[1] == TargetAllowlist && ALL_RULES[2] == SelectorAllowlist
    ensures ALL_RULES[3] == ValueCap && ALL_RULES[4] == WindowedLimits && ALL_RULES[5] == ScheduleWindow
    ensures ALL_RULES[6] == ApprovalBound && ALL_RULES[7] == GasCeiling && ALL_RULES[8] == InvariantsRequired
    ensures ALL_RULES[9] == HoldOnLargeValue && ALL_RULES[10] == HoldOnUnknownCounterparty
  {
  }

  lemma AnyoneOfEleven(rs: seq<Rule>, i: Intent, p: Policy, c: Context, s: Severity)
    requires |rs| == 11
    ensures Anyone(rs, i, p, c, s) <==>
      || Raises(rs[0], i, p, c, s) || Raises(rs[1], i, p, c, s) || Raises(rs[2], i, p, c, s)
      || Raises(rs[3], i, p, c, s) || Raises(rs[4], i, p, c, s) || Raises(rs[5], i, p, c, s)
      || Raises(rs[6], i, p, c, s) || Raises(rs[7], i, p, c, s) || Raises(rs[8], i, p, c, s)
      || Raises(rs[9], i, p, c, s) || Raises(rs[10], i, p, c, s)
  {
  }

  lemma AnyoneIs(i: Intent, p: Policy, c: Context, s: Severity)
    ensures Anyone(ALL_RULES, i, p, c, s) <==>
      || Raises(ChainAllowed, i, p, c, s) || Raises(TargetAllowlist, i, p, c, s)
      || Raises(SelectorAllowlist, i, p, c, s)
      || Raises(ValueCap, i, p, c, s) || Raises(WindowedLimits, i, p, c, s) || Raises(ScheduleWindow, i, p, c, s)
      || Raises(ApprovalBound, i, p, c, s) || Raises(GasCeiling, i, p, c, s) || Raises(InvariantsRequired, i, p, c, s)
      || Raises(HoldOnLargeValue, i, p, c, s) || Raises(HoldOnUnknownCounterparty, i, p, c, s)
  {
    RuleList();
    AnyoneOfEleven(ALL_RULES, i, p, c, s);
  }

  lemma HoldsMean(i: Intent, p: Policy, c: Context)
    requires ApprovalsReadable(i)
    ensures Anyone(ALL_RULES, i, p, c, Hold) <==> !Routine(i, p, c)
  {
    AnyoneIs(i, p, c, Hold);
    ChainAndValueRules(i, p, c);
    ContextRules(i, p, c);
    WindowRule(i, p, c);
    TargetRule(i, p, c);
    SelectorRule(i, p, c);
    ApprovalRule(i, p, c);
    LargeValueRule(i, p, c);
    StrangerRule(i, p, c);
  }

  lemma CallRulesDeny(i: Intent, p: Policy, c: Context)
    requires ApprovalsReadable(i)
    ensures
      (|| Raises(TargetAllowlist, i, p, c, Deny) || Raises(SelectorAllowlist, i, p, c, Deny)
       || Raises(ApprovalBound, i, p, c, Deny))
      <==> !(forall call :: call in i.calls ==>
                TargetPermitted(p, call.target) && SelectorEnforced(p, call) && ApprovalPermitted(p, call))
  {
    TargetRule(i, p, c);
    SelectorRule(i, p, c);
    ApprovalRule(i, p, c);
  }

  lemma DenialsMean(i: Intent, p: Policy, c: Context)
    requires ApprovalsReadable(i)
    ensures Anyone(ALL_RULES, i, p, c, Deny) <==> !Enforced(i, p, c)
  {
    AnyoneIs(i, p, c, Deny);
    ChainAndValueRules(i, p, c);
    ContextRules(i, p, c);
    WindowRule(i, p, c);
    CallRulesDeny(i, p, c);
    LargeValueRule(i, p, c);
    StrangerRule(i, p, c);
  }

  lemma AllReturn(i: Intent, p: Policy, c: Context)
    requires ApprovalsReadable(i)
    ensures forall k :: 0 <= k < |ALL_RULES| ==> ALL_RULES[k](i, p, c).Some?
  {
    RuleList();
    forall k | 0 <= k < |ALL_RULES| ensures ALL_RULES[k](i, p, c).Some? {
    }
  }

  /** What each verdict means, without the rules: DENY exactly when a hard limit as enforced is
      broken, ALLOW exactly when none is and nothing needs a human, HOLD otherwise. A denial is never
      unfounded. A decision is reached unless the amount of an approval cannot be read. */
  lemma VerdictMeans(i: Intent, p: Policy, c: Context)
    ensures Decide(ALL_RULES, i, p, c).Some? <==> ApprovalsReadable(i)
    ensures ApprovalsReadable(i) ==>
      var v := Decide(ALL_RULES, i, p, c).value.verdict;
      && (v == DENY <==> !Enforced(i, p, c))
      && (v == ALLOW <==> Enforced(i, p, c) && Routine(i, p, c))
      && (v == DENY ==> !Permitted(i, p, c))
  {
    if ApprovalsReadable(i) {
      AllReturn(i, p, c);
      CollectMeans(ALL_RULES, i, p, c, Deny);
      CollectMeans(ALL_RULES, i, p, c, Hold);
      DenialsMean(i, p, c);
      HoldsMean(i, p, c);
      forall call | call in i.calls ensures SelectorPermitted(p, call) ==> SelectorEnforced(p, call) {
        ReachEnough(p, call);
      }
    } else {
      RuleList();
      assert ALL_RULES[..7][..6] == ALL_RULES[..6] && ALL_RULES[..7][6] == ApprovalBound;
      ThrownStays(ALL_RULES, 7, i, p, c);
    }
  }

  // ------------------------------------------------ the measures of the limits

  /** A past decision counts at `now`: it was not a denial, its time can be read, and it is no older
      than the policy's window. */
  predicate Counts(h: Past, p: Policy, now: int) {
    h.verdict != DENY && h.at.Some? && now - h.at.value <= 1000 * p.limits.windowSeconds
  }

  /** The recent decisions are those that count, each as often as it was taken. */
  lemma {:induction false} RecentMeans(history: seq<Past>, p: Policy, now: int, h: Past)
    ensures multiset(Recent(history, Cutoff(p, now)))[h] == if Counts(h, p, now) then multiset(history)[h] else 0
  {
    if history != [] {
      RecentMeans(history[..|history| - 1], p, now, h);
      assert history == history[..|history| - 1] + [history[|history| - 1]];
    }
  }

  /** What has been spent is the sum over the decisions, in any order. */
  lemma SpentMeans(a: seq<Past>, b: seq<Past>, h: Past)
    ensures Spent([]) == 0 && Spent([h]) == Big(h.nativeValue) && Spent(a + b) == Spent(a) + Spent(b)
  {
    assert [h][..0] == [];
    SpentSplit(a, b);
  }

  lemma {:induction false} SpentSplit(a: seq<Past>, b: seq<Past>)
    ensures Spent(a + b) == Spent(a) + Spent(b)
  {
    if b == [] {
      assert a + b == a;
    } else {
      SpentSplit(a, b[..|b| - 1]);
      assert (a + b)[..|a + b| - 1] == a + b[..|b| - 1];
    }
  }

  /** The hour of a time, days and the rest of the hour aside; also before 1970. */
  lemma HourMeans(day: int, hour: nat, rest: nat)
    requires hour < 24 && rest < 3600000
    ensures HourUtc(day * 86400000 + hour * 3600000 + rest) == hour
  {
    var now := day * 86400000 + hour * 3600000 + rest;
    assert now / 3600000 == day * 24 + hour;
  }

  /** An hour is inside if, going clockwise from the start, it comes before the end. From an hour to
      itself is no time at all, and from 0 to 24 the whole day. */
  lemma InsideMeans(s: Schedule, hour: nat)
    requires s.start < 24 && s.end <= 24 && hour < 24
    ensures Inside(s, hour) <==>
      (hour - s.start) % 24 < if s.start <= s.end then s.end - s.start else s.end + 24 - s.start
  {
  }

  // --------------------------------------------------- the limit on selectors

  /** What the first list admits, the second admits. */
  predicate Narrower(a: seq<Str>, b: seq<Str>) { S("*") in b || (S("*") !in a && LowerSet(a) <= LowerSet(b)) }

  /** No spelling of the address gets around the list under this key: the key is lower-case, or
      there is a lower-case key for the same address and its list admits no more, or, without such a
      key, the list admits everything. */
  predicate Reaches(t: Targets, key: Str)
    requires key in t.selectors
  {
    || key == Lower(key)
    || (if Lower(key) in t.selectors then Narrower(t.selectors[Lower(key)], t.selectors[key])
        else S("*") in t.selectors[key])
  }

  predicate ListsReach(t: Targets) { forall key :: key in t.selectors ==> Reaches(t, key) }

  /** What the schema demands of an entry: a star or 0x and four bytes. */
  predicate SelectorTexts(entry: seq<Str>) { forall s :: s in entry ==> s == S("*") || |s| == 10 }

  predicate ListsValid(t: Targets) { forall key :: key in t.selectors ==> SelectorTexts(t.selectors[key]) }

  lemma NarrowerAdmits(a: seq<Str>, b: seq<Str>, data: Str)
    requires Narrower(a, b) && Admits(a, data)
    ensures Admits(b, data)
  {
    if S("*") !in b {
      var s :| s in a && Selects(s, data);
      assert Lower(s) in LowerSet(a);
    }
  }

  /** A call with no selector, or with one on the first list only. */
  lemma NotNarrower(a: seq<Str>, b: seq<Str>) returns (data: Str)
    requires !Narrower(a, b) && SelectorTexts(a) && SelectorTexts(b)
    ensures Admits(a, data) && !Admits(b, data)
  {
    assert |Lower(S("*"))| == 1;
    if S("*") in a {
      data := S("0x");
    } else {
      var low :| low in LowerSet(a) && low !in LowerSet(b);
      data :| data in a && Lower(data) == low;
      assert Lower(data)[..10] == Lower(data);
      assert Selects(data, data);
    }
  }

  lemma ReachEnough(p: Policy, call: Call)
    ensures SelectorPermitted(p, call) ==> SelectorEnforced(p, call)
    ensures ListsReach(p.targets) && SelectorEnforced(p, call) ==> SelectorPermitted(p, call)
  {
    var t := p.targets;
    if ListsReach(t) && SelectorEnforced(p, call) {
      forall key | key in t.selectors && Lower(key) == Lower(call.target)
        ensures Admits(t.selectors[key], call.data)
      {
        LowerTwice(key);
        if key != Lower(key) && Lower(key) in t.selectors {
          assert Binds(t, Lower(key), call.target);
          NarrowerAdmits(t.selectors[Lower(key)], t.selectors[key], call.data);
        }
      }
    }
  }

  /** A call that gets around the list under a key that does not reach every spelling. */
  lemma WayAround(p: Policy, key: Str) returns (call: Call)
    requires ListsValid(p.targets) && key in p.targets.selectors && !Reaches(p.targets, key)
    ensures call.target == Lower(key)
    ensures SelectorEnforced(p, call) && !SelectorPermitted(p, call)
  {
    var t, low := p.targets, Lower(key);
    LowerTwice(key);
    var data := NotNarrower(if low in t.selectors then t.selectors[low] else [S("*")], t.selectors[key]);
    call := Call(low, Dec(0), data);
    assert forall k :: k in t.selectors && Binds(t, k, low) ==> k == low;
  }

  /** The rule keeps the limit, on every call, exactly if every list reaches every spelling of its
      address. Keys in lower case are enough. */
  lemma SelectorLimitExactly(p: Policy)
    requires ListsValid(p.targets)
    ensures (forall call, n: nat :: SelectorFinding(p.targets, call, n) == [] <==> SelectorPermitted(p, call))
       <==> ListsReach(p.targets)
  {
    forall call, n: nat
      ensures SelectorFinding(p.targets, call, n) == [] <==> SelectorEnforced(p, call)
      ensures ListsReach(p.targets) ==> (SelectorEnforced(p, call) <==> SelectorPermitted(p, call))
    {
      SelectorFound(p, call, n);
      ReachEnough(p, call);
    }
    if key :| key in p.targets.selectors && !Reaches(p.targets, key) {
      var call := WayAround(p, key);
      SelectorFound(p, call, 0);
      assert SelectorFinding(p.targets, call, 0) == [];
    }
  }

  /** Of one call: where an address has one key only and its list forbids the call, the rule passes
      the call exactly if the key is not lower-case and the call spells its target differently. */
  lemma SpellingDecides(p: Policy, call: Call, key: Str, n: nat)
    requires key in p.targets.selectors && Lower(key) == Lower(call.target)
    requires forall k :: k in p.targets.selectors && Lower(k) == Lower(key) ==> k == key
    requires !Admits(p.targets.selectors[key], call.data)
    ensures !SelectorPermitted(p, call)
    ensures SelectorFinding(p.targets, call, n) == [] <==> key != Lower(key) && call.target != key
  {
    SelectorFound(p, call, n);
    LowerTwice(key);
  }

  /** Where every list reaches every spelling, the limits as enforced are the limits. */
  lemma LimitsKept(i: Intent, p: Policy, c: Context)
    requires ListsReach(p.targets)
    ensures Enforced(i, p, c) <==> Permitted(i, p, c)
  {
    forall call | call in i.calls ensures SelectorEnforced(p, call) <==> SelectorPermitted(p, call) {
      ReachEnough(p, call);
    }
  }

  /** The input that shows it: under the only key of its address, spelled in mixed case, a list
      forbids every call of the intent. The calls spell the address in lower case, and the verdict
      is the one the intent would get without any list. */
  lemma OtherSpellingNotDenied(i: Intent, p: Policy, c: Context, key: Str)
    requires WithinLimits(i, p, c) && ApprovalsReadable(i) && i.calls != []
    requires key in p.targets.selectors && key != Lower(key)
    requires forall k :: k in p.targets.selectors && Lower(k) == Lower(key) ==> k == key
    requires forall call :: call in i.calls ==>
      call.target == Lower(key) && !Admits(p.targets.selectors[key], call.data)
    ensures !Permitted(i, p, c)
    ensures var d := Decide(ALL_RULES, i, p, c);
      d.Some? && d.value.verdict == if Routine(i, p, c) then ALLOW else HOLD
  {
    LowerTwice(key);
    forall call | call in i.calls ensures SelectorEnforced(p, call) && !SelectorPermitted(p, call) {
      SpellingDecides(p, call, key, 0);
      SelectorFound(p, call, 0);
    }
    assert i.calls[0] in i.calls;
    VerdictMeans(i, p, c);
  }

  /** Denials come before holds, and the verdict is the severity of the first reason. */
  lemma ReasonsOrdered(rules: seq<Rule>, i: Intent, p: Policy, c: Context)
    requires Decide(rules, i, p, c).Some?
    ensures var d := Decide(rules, i, p, c).value;
      && (forall m, n :: 0 <= m < n < |d.reasons| && d.reasons[n].severity == Deny ==> d.reasons[m].severity == Deny)
      && (d.verdict == ALLOW <==> d.reasons == [])
      && (d.reasons != [] ==> (d.verdict == DENY <==> d.reasons[0].severity == Deny))
  {
    var fs := Collect(rules, i, p, c).value;
    AllSelected(fs, Deny);
    AllSelected(fs, Hold);
    SelectedIfAny(fs, Deny);
    SelectedIfAny(fs, Hold);
  }

  lemma {:induction false} SelectedIfAny(fs: seq<Finding>, s: Severity)
    ensures Select(fs, s) != [] <==> Has(fs, s)
  {
    if fs != [] {
      SelectedIfAny(fs[1..], s);
      HasConcat([fs[0]], fs[1..], s);
      assert [fs[0]] + fs[1..] == fs && Has([fs[0]], s) == (fs[0].severity == s) by {
        if fs[0].severity == s { assert [fs[0]][0].severity == s; }
      }
    }
  }

  /** The reasons of a verdict are those of the rules, reordered only by severity. */
  lemma ReasonsComplete(rules: seq<Rule>, i: Intent, p: Policy, c: Context)
    requires Decide(rules, i, p, c).Some?
    ensures multiset(Decide(rules, i, p, c).value.reasons) == multiset(Collect(rules, i, p, c).value)
  {
    SortPartitions(Collect(rules, i, p, c).value);
  }

  lemma CallRulesIgnore(i: Intent, p: Policy, c: Context, j: Intent, q: Policy)
    requires j == i.(rationale := j.rationale) && q == p.(name := q.name)
    ensures TargetAllowlist(j, q, c) == TargetAllowlist(i, p, c) && ApprovalBound(j, q, c) == ApprovalBound(i, p, c)
    ensures SelectorAllowlist(j, q, c) == SelectorAllowlist(i, p, c)
    ensures HoldOnUnknownCounterparty(j, q, c) == HoldOnUnknownCounterparty(i, p, c)
  {
  }

  lemma OtherRulesIgnore(i: Intent, p: Policy, c: Context, j: Intent, q: Policy)
    requires j == i.(rationale := j.rationale) && q == p.(name := q.name)
    ensures ChainAllowed(j, q, c) == ChainAllowed(i, p, c) && ValueCap(j, q, c) == ValueCap(i, p, c)
    ensures WindowedLimits(j, q, c) == WindowedLimits(i, p, c) && ScheduleWindow(j, q, c) == ScheduleWindow(i, p, c)
    ensures GasCeiling(j, q, c) == GasCeiling(i, p, c) && InvariantsRequired(j, q, c) == InvariantsRequired(i, p, c)
    ensures HoldOnLargeValue(j, q, c) == HoldOnLargeValue(i, p, c)
  {
  }

  lemma {:induction false} CollectCongruent(rules: seq<Rule>, i: Intent, p: Policy, c: Context, j: Intent, q: Policy)
    requires forall k :: 0 <= k < |rules| ==> rules[k](j, q, c) == rules[k](i, p, c)
    ensures Collect(rules, j, q, c) == Collect(rules, i, p, c)
  {
    if rules != [] { CollectCongruent(rules[..|rules| - 1], i, p, c, j, q); }
  }

  lemma EachOfEleven(rs: seq<Rule>, i: Intent, p: Policy, c: Context, j: Intent, q: Policy)
    requires |rs| == 11
    requires rs[0](j, q, c) == rs[0](i, p, c) && rs[1](j, q, c) == rs[1](i, p, c) && rs[2](j, q, c) == rs[2](i, p, c)
    requires rs[3](j, q, c) == rs[3](i, p, c) && rs[4](j, q, c) == rs[4](i, p, c) && rs[5](j, q, c) == rs[5](i, p, c)
    requires rs[6](j, q, c) == rs[6](i, p, c) && rs[7](j, q, c) == rs[7](i, p, c) && rs[8](j, q, c) == rs[8](i, p, c)
    requires rs[9](j, q, c) == rs[9](i, p, c) && rs[10](j, q, c) == rs[10](i, p, c)
    ensures forall k :: 0 <= k < |rs| ==> rs[k](j, q, c) == rs[k](i, p, c)
  {
  }

  /** Neither the agent's rationale nor the name of the policy reaches a decision. */
  lemma ProseIgnored(i: Intent, p: Policy, c: Context, rationale: Option<Str>, name: Str)
    ensures Decide(ALL_RULES, i.(rationale := rationale), p.(name := name), c) == Decide(ALL_RULES, i, p, c)
  {
    var j, q := i.(rationale := rationale), p.(name := name);
    RuleList();
    CallRulesIgnore(i, p, c, j, q);
    OtherRulesIgnore(i, p, c, j, q);
    EachOfEleven(ALL_RULES, i, p, c, j, q);
    CollectCongruent(ALL_RULES, i, p, c, j, q);
  }

  /** With nothing known about counterparties, as in the deployed gateway, an intent that makes a
      call is never allowed outright under a policy that holds on unknown ones. */
  lemma FreshContextNeverAllows(i: Intent, p: Policy, now: int)
    requires i.calls != [] && p.holdAbove.unknownCounterparty && ApprovalsReadable(i)
    ensures var d := Decide(ALL_RULES, i, p, Context(now, [], None, [])); d.Some? && d.value.verdict != ALLOW
  {
    VerdictMeans(i, p, Context(now, [], None, []));
    assert i.calls[0] in i.calls;
  }

  ghost predicate SomeFrom(calls: seq<Call>, i: nat, f: (Call, nat) -> seq<Finding>, x: Finding) {
    exists k :: i <= k < |calls| && x in f(calls[k], k)
  }

  lemma SomeFromNext(calls: seq<Call>, i: nat, f: (Call, nat) -> seq<Finding>, x: Finding)
    requires i < |calls|
    ensures SomeFrom(calls, i, f, x) <==> x in f(calls[i], i) || SomeFrom(calls, i + 1, f, x)
  {
  }

  lemma {:induction false} PerCallElements(calls: seq<Call>, i: nat, f: (Call, nat) -> seq<Finding>, x: Finding)
    requires i <= |calls|
    ensures x in PerCall(calls, i, f) <==> SomeFrom(calls, i, f, x)
    decreases |calls| - i
  {
    if i < |calls| {
      PerCallElements(calls, i + 1, f, x);
      SomeFromNext(calls, i, f, x);
      assert x in f(calls[i], i) + PerCall(calls, i + 1, f) <==> x in f(calls[i], i) || x in PerCall(calls, i + 1, f);
    }
  }

  /** A reason about a call names the call it is about: each of the three rules over calls reports
      index k exactly if call k is one that breaks it. */
  lemma TargetsNamed(i: Intent, p: Policy, c: Context, k: nat)
    ensures Finding(TARGET_NOT_ALLOWED, Deny, Some(k)) in TargetAllowlist(i, p, c).value
       <==> k < |i.calls| && !TargetPermitted(p, i.calls[k].target)
  {
    var f, x := TargetFindings(p.targets), Finding(TARGET_NOT_ALLOWED, Deny, Some(k));
    PerCallElements(i.calls, 0, f, x);
    forall j | 0 <= j < |i.calls| ensures x in f(i.calls[j], j) <==> j == k && !TargetPermitted(p, i.calls[j].target) {
    }
  }

  lemma SelectorsNamed(i: Intent, p: Policy, c: Context, k: nat)
    ensures var named := Finding(SELECTOR_NOT_ALLOWED, Deny, Some(k)) in SelectorAllowlist(i, p, c).value;
      && (named <==> k < |i.calls| && !SelectorEnforced(p, i.calls[k]))
      && (ListsReach(p.targets) ==> (named <==> k < |i.calls| && !SelectorPermitted(p, i.calls[k])))
  {
    var f, x := SelectorFindings(p.targets), Finding(SELECTOR_NOT_ALLOWED, Deny, Some(k));
    PerCallElements(i.calls, 0, f, x);
    forall j | 0 <= j < |i.calls| ensures x in f(i.calls[j], j) <==> j == k && !SelectorEnforced(p, i.calls[j]) {
      SelectorFound(p, i.calls[j], j);
    }
    if k < |i.calls| { ReachEnough(p, i.calls[k]); }
  }

  lemma ApprovalsNamed(i: Intent, p: Policy, c: Context, k: nat)
    requires ApprovalsReadable(i)
    ensures Finding(APPROVAL_TOO_LARGE, Deny, Some(k)) in ApprovalBound(i, p, c).value
       <==> k < |i.calls| && !ApprovalPermitted(p, i.calls[k])
  {
    var f, x := ApprovalFindings(p.maxApproval), Finding(APPROVAL_TOO_LARGE, Deny, Some(k));
    PerCallElements(i.calls, 0, f, x);
    forall j | 0 <= j < |i.calls| ensures x in f(i.calls[j], j) <==> j == k && !ApprovalPermitted(p, i.calls[j]) {
      ApprovalFound(p, i.calls[j], j);
    }
  }

  /** In particular an intent is denied if one of its calls approves more than the policy's maximum,
      whatever the spender and whatever follows the amount. */
  lemma LargeApprovalDenied(i: Intent, p: Policy, c: Context, k: nat, selector: Str, spender: Str, word: Str,
                            tail: Str, n: nat)
    requires k < |i.calls| && i.calls[k].data == selector + spender + word + tail
    requires |selector| == 10 && Lower(selector) == S("0x095ea7b3") && |spender| == 64 && |word| == 64
    requires Writes(word, n) && n > Big(p.maxApproval) && ApprovalsReadable(i)
    ensures Decide(ALL_RULES, i, p, c).Some? && Decide(ALL_RULES, i, p, c).value.verdict == DENY
    ensures Finding(APPROVAL_TOO_LARGE, Deny, Some(k)) in ApprovalBound(i, p, c).value
  {
    ApprovalBuilt(selector, spender, word, tail, n);
    assert i.calls[k] in i.calls && !ApprovalPermitted(p, i.calls[k]);
    VerdictMeans(i, p, c);
    ApprovalsNamed(i, p, c, k);
  }

  // -------------------------------------------------------- the window over runs

  /** One intent put to the policy: the reading of the clock, what the caller knows, and whether the
      simulation that follows an ALLOW predicts a revert. */
  datatype Submission = Submission(intent: Intent, now: int, gas: Option<Decimal>, known: seq<Str>, reverts: bool)

  function Recorded(d: Decision, s: Submission): Past {
    Past(Some(s.now), if d.verdict == ALLOW && s.reverts then DENY else d.verdict, Dec(SumValues(s.intent.calls)))
  }

  /** A caller that appends every decision to its history. An exception records nothing. */
  function Extended(p: Policy, before: seq<Past>, s: Submission): seq<Past> {
    match Decide(ALL_RULES, s.intent, p, Context(s.now, before, s.gas, s.known))
    case None => before
    case Some(d) => before + [Recorded(d, s)]
  }

  function HistoryOf(p: Policy, ss: seq<Submission>): seq<Past> {
    if ss == [] then [] else Extended(p, HistoryOf(p, ss[..|ss| - 1]), ss[|ss| - 1])
  }

  /** Admitted means HOLD or ALLOW. */
  predicate InWindow(h: Past, from: int, to: int) { h.verdict != DENY && h.at.Some? && from <= h.at.value <= to }

  function Admitted(history: seq<Past>, from: int, to: int): seq<Past> {
    if history == [] then []
    else
      Admitted(history[..|history| - 1], from, to)
      + if InWindow(history[|history| - 1], from, to) then [history[|history| - 1]] else []
  }

  lemma SpentConcat(a: seq<Past>, x: Past)
    ensures Spent(a + [x]) == Spent(a) + Big(x.nativeValue)
  {
    assert (a + [x])[..|a|] == a;
  }

  /** Whatever lies in a window is recent from any reading in that window. */
  lemma {:induction false} AdmittedRecent(history: seq<Past>, from: int, to: int, cutoff: int)
    requires cutoff <= from
    ensures |Admitted(history, from, to)| <= |Recent(history, cutoff)|
    ensures Spent(Admitted(history, from, to)) <= Spent(Recent(history, cutoff))
  {
    if history != [] {
      var init, h := history[..|history| - 1], history[|history| - 1];
      AdmittedRecent(init, from, to, cutoff);
      SpentConcat(Admitted(init, from, to), h);
      SpentConcat(Recent(init, cutoff), h);
      assert Admitted(init, from, to) + [] == Admitted(init, from, to);
      assert Recent(init, cutoff) + [] == Recent(init, cutoff);
    }
  }

  lemma AdmittedSnoc(history: seq<Past>, x: Past, from: int, to: int)
    ensures Admitted(history + [x], from, to) == Admitted(history, from, to) + if InWindow(x, from, to) then [x] else []
  {
    assert (history + [x])[..|history|] == history;
  }

  ghost predicate Within(p: Policy, history: seq<Past>, from: int) {
    var inside := Admitted(history, from, from + p.limits.windowSeconds * 1000);
    |inside| <= p.limits.maxIntentsPerWindow && Spent(inside) <= Big(p.limits.maxNativeValuePerWindow)
  }

  /** What an admission has checked about the history before it. */
  lemma AdmissionChecked(p: Policy, before: seq<Past>, s: Submission)
    ensures Extended(p, before, s) != before ==>
      && |Extended(p, before, s)| == |before| + 1 && Extended(p, before, s)[..|before|] == before
      && var e := Extended(p, before, s)[|before|];
         && e.at == Some(s.now)
         && (e.verdict != DENY ==>
               var recent := Recent(before, Cutoff(p, s.now));
               && |recent| + 1 <= p.limits.maxIntentsPerWindow
               && Spent(recent) + Big(e.nativeValue) <= Big(p.limits.maxNativeValuePerWindow))
  {
    VerdictMeans(s.intent, p, Context(s.now, before, s.gas, s.known));
    BigDec(SumValues(s.intent.calls));
  }

  /** An entry admitted against everything recent fits into any window it lies in. */
  lemma EntryFits(p: Policy, before: seq<Past>, e: Past, now: int, from: int)
    requires e.at == Some(now) && InWindow(e, from, from + p.limits.windowSeconds * 1000)
    requires |Recent(before, Cutoff(p, now))| + 1 <= p.limits.maxIntentsPerWindow
    requires Spent(Recent(before, Cutoff(p, now))) + Big(e.nativeValue) <= Big(p.limits.maxNativeValuePerWindow)
    ensures Within(p, before + [e], from)
  {
    var to := from + p.limits.windowSeconds * 1000;
    AdmittedSnoc(before, e, from, to);
    AdmittedRecent(before, from, to, Cutoff(p, now));
    SpentConcat(Admitted(before, from, to), e);
  }

  lemma OthersStay(p: Policy, before: seq<Past>, e: Past, from: int)
    requires Within(p, before, from) && !InWindow(e, from, from + p.limits.windowSeconds * 1000)
    ensures Within(p, before + [e], from)
  {
    var to := from + p.limits.windowSeconds * 1000;
    AdmittedSnoc(before, e, from, to);
    assert Admitted(before, from, to) + [] == Admitted(before, from, to);
  }

  lemma StepWithin(p: Policy, before: seq<Past>, s: Submission, from: int)
    requires Within(p, before, from)
    ensures Within(p, Extended(p, before, s), from)
  {
    var after := Extended(p, before, s);
    AdmissionChecked(p, before, s);
    if after != before {
      var e := after[|before|];
      assert after == before + [e];
      if InWindow(e, from, from + p.limits.windowSeconds * 1000) {
        EntryFits(p, before, e, s.now, from);
      } else {
        OthersStay(p, before, e, from);
      }
    }
  }

  /** In every run, and in every closed window of the policy's length wherever it begins, the
      admitted intents are at most the limit in number and in total value. The clock readings need
      not even be in order. */
  lemma {:induction false} WindowSafe(p: Policy, ss: seq<Submission>, from: int)
    ensures var inside := Admitted(HistoryOf(p, ss), from, from + p.limits.windowSeconds * 1000);
      && |inside| <= p.limits.maxIntentsPerWindow
      && Spent(inside) <= Big(p.limits.maxNativeValuePerWindow)
  {
    if ss != [] {
      WindowSafe(p, ss[..|ss| - 1], from);
      StepWithin(p, HistoryOf(p, ss[..|ss| - 1]), ss[|ss| - 1], from);
    }
  }
}
