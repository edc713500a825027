/** The policy canvas: a policy document becomes placed blocks and the members no block can show,
    and blocks compile back into a document. */
module Canvas {
  import opened Text
  import opened Json
  import opened Canonical
  import Intents
  import Policy

  // ----------------------------------------------------------------- blocks

  datatype Kind =
    | Target | Selector | ValueCap | ApprovalBound | RateLimit | Schedule | HoldAbove | InvariantFloor | InvariantDrop

  datatype Format = Uint | Address | FourBytes | Int | Hours

  datatype FieldSpec = FieldSpec(key: Str, format: Format, initial: Str)

  /** A block without its id and place on the canvas. */
  datatype Block = Block(kind: Kind, values: map<Str, Str>)

  predicate IsInvariant(k: Kind) { k == InvariantFloor || k == InvariantDrop }

  const CONTRACT_TEXT: Ascii := "0x2BeaFD2Ed0D8e3831752b3243E7C5b2CA67Fdb0B"
  const CONTRACT: Str := S(CONTRACT_TEXT)
  const ADDRESS: Str := S("address")
  const SELECTOR: Str := S("selector")
  const PER_INTENT: Str := S("maxPerIntent")
  const MAX_APPROVAL: Str := S("maxApproval")
  const MAX_INTENTS: Str := S("maxIntents")
  const WINDOW_SECONDS: Str := S("windowSeconds")
  const MAX_VALUE: Str := S("maxValue")
  const START_HOUR: Str := S("startHour")
  const END_HOUR: Str := S("endHour")
  const NATIVE_VALUE: Str := S("nativeValue")
  const PROBED: Str := S("target")
  const PROBE: Str := S("probe")
  const WORD: Str := S("word")
  const THRESHOLD: Str := S("threshold")
  const ONE_ETHER: Str := S("1000000000000000000")
  const BORROW: Str := S("0x9d0bf2e9")
  const TWENTY: Str := S("20")
  const HOUR: Str := S("3600")
  const FIVE_ETHER: Str := S("5000000000000000000")
  const EIGHT: Str := S("8")
  const HALF_ETHER: Str := S("500000000000000000")
  const ACCOUNT_DATA: Str := S("0xbf92857c")
  const FIVE: Str := S("5")
  const FLOOR: Str := S("1400000000000000000")
  const BALANCE: Str := S("0x70a08231")
  const ZERO: Str := S("0")
  const TENTH_ETHER: Str := S("100000000000000000")
  const ONE: Str := S("1")
  const MIDNIGHT: Str := S("24")
  const DEFAULT_GAS: Str := S("2000000")

  function InvariantFields(probe: Str, word: Str, threshold: Str): seq<FieldSpec> {
    [FieldSpec(PROBED, Address, CONTRACT), FieldSpec(PROBE, FourBytes, probe),
     FieldSpec(WORD, Int, word), FieldSpec(THRESHOLD, Uint, threshold)]
  }

  /** The catalogue. */
  function Fields(k: Kind): seq<FieldSpec> {
    match k
    case Target => [FieldSpec(ADDRESS, Address, CONTRACT)]
    case Selector => [FieldSpec(ADDRESS, Address, CONTRACT), FieldSpec(SELECTOR, FourBytes, BORROW)]
    case ValueCap => [FieldSpec(PER_INTENT, Uint, ONE_ETHER)]
    case ApprovalBound => [FieldSpec(MAX_APPROVAL, Uint, ONE_ETHER)]
    case RateLimit =>
      [FieldSpec(MAX_INTENTS, Int, TWENTY), FieldSpec(WINDOW_SECONDS, Int, HOUR),
       FieldSpec(MAX_VALUE, Uint, FIVE_ETHER)]
    case Schedule => [FieldSpec(START_HOUR, Hours, EIGHT), FieldSpec(END_HOUR, Hours, TWENTY)]
    case HoldAbove => [FieldSpec(NATIVE_VALUE, Uint, HALF_ETHER)]
    case InvariantFloor => InvariantFields(ACCOUNT_DATA, FIVE, FLOOR)
    case InvariantDrop => InvariantFields(BALANCE, ZERO, TENTH_ETHER)
  }

  function Initial(fs: seq<FieldSpec>): map<Str, Str> {
    if fs == [] then map[] else Initial(fs[..|fs| - 1])[fs[|fs| - 1].key := fs[|fs| - 1].initial]
  }

  function NewBlock(k: Kind, values: map<Str, Str>): Block { Block(k, Initial(Fields(k)) + values) }

  // ------------------------------------------------------- document to blocks

  /** The members of a nested record; a value without members has none. */
  function Nested(ms: seq<Member>, key: Str): seq<Member> {
    match Field(ms, key)
    case Some(Obj(inner)) => inner
    case _ => []
  }

  function TargetBlocks(allow: seq<Json>): seq<Block> {
    if allow == [] then []
    else
      TargetBlocks(allow[..|allow| - 1])
      + match allow[|allow| - 1]
        case Text(a) => [NewBlock(Target, map[ADDRESS := a])]
        case _ => []
  }

  function SelectorBlocksOn(address: Str, sels: seq<Json>): seq<Block> {
    if sels == [] then []
    else
      SelectorBlocksOn(address, sels[..|sels| - 1])
      + match sels[|sels| - 1]
        case Text(s) => [NewBlock(Selector, map[ADDRESS := address, SELECTOR := s])]
        case _ => []
  }

  function SelectorBlocks(ms: seq<Member>): seq<Block> {
    if ms == [] then []
    else
      SelectorBlocks(ms[..|ms| - 1])
      + match ms[|ms| - 1].value
        case Arr(sels) => SelectorBlocksOn(ms[|ms| - 1].key, sels)
        case _ => []
  }

  const CHAINS: Str := S("chains")
  const TARGETS: Str := S("targets")
  const ALLOW: Str := S("allow")
  const SELECTORS: Str := S("selectors")
  const LIMITS: Str := S("limits")
  const VALUE_PER_INTENT: Str := S("maxNativeValuePerIntent")
  const VALUE_PER_WINDOW: Str := S("maxNativeValuePerWindow")
  const INTENTS_PER_WINDOW: Str := S("maxIntentsPerWindow")
  const MAX_GAS: Str := S("maxGas")
  const HOLD_ABOVE: Str := S("holdAbove")
  const UNKNOWN: Str := S("unknownCounterparty")
  const APPROVALS: Str := S("approvals")
  const MIN_INVARIANTS: Str := S("minInvariants")

  function TargetsPart(targets: seq<Member>): seq<Block> {
    (match Field(targets, ALLOW)
     case Some(Arr(allow)) => TargetBlocks(allow)
     case _ => [])
    + (match Field(targets, SELECTORS)
       case Some(Obj(selectors)) => SelectorBlocks(selectors)
       case _ => [])
  }

  function LimitsPart(limits: seq<Member>): seq<Block> {
    (match Field(limits, VALUE_PER_INTENT)
     case Some(Text(v)) => [NewBlock(ValueCap, map[PER_INTENT := v])]
     case _ => [])
    + (match (Field(limits, VALUE_PER_WINDOW), Field(limits, WINDOW_SECONDS), Field(limits, INTENTS_PER_WINDOW))
       case (Some(Text(v)), Some(Num(w)), Some(Num(n))) =>
         [NewBlock(RateLimit, map[MAX_VALUE := v, WINDOW_SECONDS := EmitNum(w), MAX_INTENTS := EmitNum(n)])]
       case _ => [])
  }

  function TextPart(ms: seq<Member>, key: Str, kind: Kind, field: Str): seq<Block> {
    match Field(ms, key)
    case Some(Text(v)) => [NewBlock(kind, map[field := v])]
    case _ => []
  }

  /** policyToBlocks, on the members of the document. */
  function BlocksOf(doc: seq<Member>): seq<Block> {
    TargetsPart(Nested(doc, TARGETS)) + LimitsPart(Nested(doc, LIMITS))
    + TextPart(Nested(doc, APPROVALS), MAX_APPROVAL, ApprovalBound, MAX_APPROVAL)
    + TextPart(Nested(doc, HOLD_ABOVE), NATIVE_VALUE, HoldAbove, NATIVE_VALUE)
  }

  function Carried(key: Str, value: Option<Json>): seq<Member> {
    match value
    case None => []
    case Some(v) => [Member(key, v)]
  }

  function CarriedIn(key: Str, inner: Str, value: Option<Json>): seq<Member> {
    match value
    case None => []
    case Some(v) => [Member(key, Obj([Member(inner, v)]))]
  }

  /** What no block shows, to be merged back after compiling. */
  function CarryOver(doc: seq<Member>): seq<Member> {
    (match Field(doc, CHAINS)
     case Some(Arr(chains)) => if chains == [] then [] else [Member(CHAINS, Arr(chains))]
     case _ => [])
    + CarriedIn(LIMITS, MAX_GAS, Field(Nested(doc, LIMITS), MAX_GAS))
    + CarriedIn(HOLD_ABOVE, UNKNOWN, Field(Nested(doc, HOLD_ABOVE), UNKNOWN))
    + Carried(MIN_INVARIANTS, Field(doc, MIN_INVARIANTS))
  }

  /** The loops of policyToBlocks push one block per target and one per selector. */
  method PushTargets(allow: seq<Json>) returns (blocks: seq<Block>)
    ensures blocks == TargetBlocks(allow)
  {
    blocks := [];
    var i := 0;
    while i < |allow|
      invariant i <= |allow| && blocks == TargetBlocks(allow[..i])
    {
      assert allow[..i + 1][..i] == allow[..i];
      if allow[i].Text? { blocks := blocks + [NewBlock(Target, map[ADDRESS := allow[i].s])]; }
      i := i + 1;
    }
    assert allow[..i] == allow;
  }

  method PushSelectors(ms: seq<Member>) returns (blocks: seq<Block>)
    ensures blocks == SelectorBlocks(ms)
  {
    blocks := [];
    var i := 0;
    while i < |ms|
      invariant i <= |ms| && blocks == SelectorBlocks(ms[..i])
    {
      assert ms[..i + 1][..i] == ms[..i];
      if ms[i].value.Arr? {
        var more := PushSelectorsOn(ms[i].key, ms[i].value.items);
        blocks := blocks + more;
      }
      i := i + 1;
    }
    assert ms[..i] == ms;
  }

  method PushSelectorsOn(address: Str, sels: seq<Json>) returns (blocks: seq<Block>)
    ensures blocks == SelectorBlocksOn(address, sels)
  {
    blocks := [];
    var i := 0;
    while i < |sels|
      invariant i <= |sels| && blocks == SelectorBlocksOn(address, sels[..i])
    {
      assert sels[..i + 1][..i] == sels[..i];
      if sels[i].Text? {
        blocks := blocks + [NewBlock(Selector, map[ADDRESS := address, SELECTOR := sels[i].s])];
      }
      i := i + 1;
    }
    assert sels[..i] == sels;
  }

  method PushTargetsPart(targets: seq<Member>) returns (blocks: seq<Block>)
    ensures blocks == TargetsPart(targets)
  {
    var allow, selectors := Field(targets, ALLOW), Field(targets, SELECTORS);
    var first, second: seq<Block> := [], [];
    if allow.Some? && allow.value.Arr? { first := PushTargets(allow.value.items); }
    if selectors.Some? && selectors.value.Obj? { second := PushSelectors(selectors.value.members); }
    blocks := first + second;
  }

  method PolicyToBlocks(doc: seq<Member>) returns (blocks: seq<Block>, carryOver: seq<Member>)
    ensures blocks == BlocksOf(doc) && carryOver == CarryOver(doc)
  {
    blocks := PushTargetsPart(Nested(doc, TARGETS));
    blocks := blocks + LimitsPart(Nested(doc, LIMITS));
    blocks := blocks + TextPart(Nested(doc, APPROVALS), MAX_APPROVAL, ApprovalBound, MAX_APPROVAL);
    blocks := blocks + TextPart(Nested(doc, HOLD_ABOVE), NATIVE_VALUE, HoldAbove, NATIVE_VALUE);
    carryOver := CarryOver(doc);
  }

  // ------------------------------------------------------- blocks to document

  function TrimStart(s: Str): Str { if s != [] && IsSpace(s[0]) then TrimStart(s[1..]) else s }

  function TrimEnd(s: Str): Str { if s != [] && IsSpace(s[|s| - 1]) then TrimEnd(s[..|s| - 1]) else s }

  function Trim(s: Str): Str { TrimEnd(TrimStart(s)) }

  function First(bs: seq<Block>, k: Kind): Option<Block> {
    if bs == [] then None else if bs[0].kind == k then Some(bs[0]) else First(bs[1..], k)
  }

  function OfKind(bs: seq<Block>, k: Kind): seq<Block> {
    if bs == [] then [] else (if bs[0].kind == k then [bs[0]] else []) + OfKind(bs[1..], k)
  }

  function Value(b: Option<Block>, key: Str, fallback: Str): Str {
    if b.None? || key !in b.value.values || Trim(b.value.values[key]) == [] then fallback
    else Trim(b.value.values[key])
  }

  /** Number of a text. `Foreign` stands for the result on anything but a digit string in range. */
  function NumberOf(s: Str): Json {
    if IsDecimal(s) && Big(s) <= 0x1F_FFFF_FFFF_FFFF then Num(Big(s)) else Foreign
  }

  /** Assignment to a property: in place, or at the end. */
  function SetMember(ms: seq<Member>, key: Str, v: Json): seq<Member> {
    match Find(ms, key)
    case None => ms + [Member(key, v)]
    case Some(i) => ms[i := Member(key, v)]
  }

  /** One selector block on the map: its code is appended to the list of its address. */
  function AddSelector(ms: seq<Member>, address: Str, code: Str): seq<Member> {
    match Field(ms, address)
    case Some(Arr(codes)) => SetMember(ms, address, Arr(codes + [Text(code)]))
    case _ => SetMember(ms, address, Arr([Text(code)]))
  }

  function SelectorMap(bs: seq<Block>): seq<Member> {
    if bs == [] then []
    else
      var before, b := SelectorMap(bs[..|bs| - 1]), Some(bs[|bs| - 1]);
      var address, code := Value(b, ADDRESS, []), Value(b, SELECTOR, []);
      if address == [] || code == [] then before else AddSelector(before, address, code)
  }

  method BuildSelectorMap(bs: seq<Block>) returns (ms: seq<Member>)
    ensures ms == SelectorMap(bs)
  {
    ms := [];
    var i := 0;
    while i < |bs|
      invariant i <= |bs| && ms == SelectorMap(bs[..i])
    {
      assert bs[..i + 1][..i] == bs[..i];
      var address, code := Value(Some(bs[i]), ADDRESS, []), Value(Some(bs[i]), SELECTOR, []);
      if address != [] && code != [] { ms := AddSelector(ms, address, code); }
      i := i + 1;
    }
    assert bs[..i] == bs;
  }

  function AllowList(bs: seq<Block>): seq<Json> {
    if bs == [] then []
    else
      var a := Value(Some(bs[|bs| - 1]), ADDRESS, []);
      AllowList(bs[..|bs| - 1]) + if a == [] then [] else [Text(a)]
  }

  /** mergeInto: records merge member by member, anything else is replaced. */
  function MergeOne(target: seq<Member>, m: Member): seq<Member>
    decreases m, 1
  {
    match (Field(target, m.key), m.value)
    case (Some(Obj(inner)), Obj(more)) => SetMember(target, m.key, Obj(Merge(inner, more)))
    case _ => SetMember(target, m.key, m.value)
  }

  function Merge(target: seq<Member>, extra: seq<Member>): seq<Member>
    decreases extra, 0
  {
    if extra == [] then target else Merge(MergeOne(target, extra[0]), extra[1..])
  }

  const VERSION: Str := S("version")
  const NAME: Str := S("name")
  const SCHEDULE: Str := S("schedule")
  const HOURS: Str := S("allowedHoursUtc")
  const DEFAULT_NAME: Str := S("canvas-policy")

  function InvariantCount(bs: seq<Block>): nat {
    if bs == [] then 0 else (if IsInvariant(bs[0].kind) then 1 else 0) + InvariantCount(bs[1..])
  }

  function LimitsDoc(cap: Option<Block>, rate: Option<Block>): Json {
    Obj([Member(VALUE_PER_INTENT, Text(Value(cap, PER_INTENT, ZERO))),
         Member(VALUE_PER_WINDOW, Text(Value(rate, MAX_VALUE, ZERO))),
         Member(WINDOW_SECONDS, NumberOf(Value(rate, WINDOW_SECONDS, HOUR))),
         Member(INTENTS_PER_WINDOW, NumberOf(Value(rate, MAX_INTENTS, ONE))),
         Member(MAX_GAS, Text(DEFAULT_GAS))])
  }

  function MinInvariantsDoc(n: nat): Json {
    if n <= 1 then Num(1) else if n <= 0x1F_FFFF_FFFF_FFFF then Num(n) else Foreign
  }

  function BaseDoc(bs: seq<Block>): seq<Member> {
    [Member(VERSION, Num(1)),
     Member(NAME, Text(DEFAULT_NAME)),
     Member(CHAINS, Arr([Num(11155111)])),
     Member(TARGETS, Obj([Member(ALLOW, Arr(AllowList(OfKind(bs, Target)))),
                          Member(SELECTORS, Obj(SelectorMap(OfKind(bs, Selector))))])),
     Member(LIMITS, LimitsDoc(First(bs, ValueCap), First(bs, RateLimit))),
     Member(HOLD_ABOVE, Obj([Member(NATIVE_VALUE, Text(Value(First(bs, HoldAbove), NATIVE_VALUE, ZERO))),
                             Member(UNKNOWN, Bool(true))])),
     Member(APPROVALS, Obj([Member(MAX_APPROVAL, Text(Value(First(bs, ApprovalBound), MAX_APPROVAL, ZERO)))])),
     Member(MIN_INVARIANTS, MinInvariantsDoc(InvariantCount(bs)))]
  }

  function ScheduleDoc(b: Block): Json {
    Obj([Member(HOURS, Arr([NumberOf(Value(Some(b), START_HOUR, ZERO)),
                            NumberOf(Value(Some(b), END_HOUR, MIDNIGHT))]))])
  }

  predicate Blank(name: Str) { Trim(name) == [] }

  /** The document from the blocks and the name alone. */
  function Named(bs: seq<Block>, name: Option<Str>): seq<Member> {
    Titled(BaseDoc(bs), First(bs, Schedule), name)
  }

  function Titled(base: seq<Member>, schedule: Option<Block>, name: Option<Str>): seq<Member> {
    var scheduled :=
      match schedule
      case None => base
      case Some(b) => SetMember(base, SCHEDULE, ScheduleDoc(b));
    if name.Some? && !Blank(name.value) then SetMember(scheduled, NAME, Text(name.value)) else scheduled
  }

  /** The policy document that compile produces. */
  function Compile(bs: seq<Block>, name: Option<Str>, carryOver: Option<seq<Member>>): seq<Member> {
    match carryOver
    case None => Named(bs, name)
    case Some(extra) => Merge(Named(bs, name), extra)
  }

  // ---------------------------------------------------------- field validation

  predicate WellShaped(f: Format, raw: Str) {
    match f
    case Address => IsAddress(raw)
    case FourBytes => IsFourBytes(raw)
    case Uint => IsDecimal(raw)
    case Int => IsDecimal(raw)
    case Hours => IsDecimal(raw) && Big(raw) <= 24
  }

  /** The field of an issue that validate raises on a block. */
  function FieldIssue(f: FieldSpec, values: map<Str, Str>): seq<Str> {
    var raw := Trim(if f.key in values then values[f.key] else []);
    if raw == [] || !WellShaped(f.format, raw) then [f.key] else []
  }

  function BlockIssues(fs: seq<FieldSpec>, values: map<Str, Str>): seq<Str> {
    if fs == [] then [] else FieldIssue(fs[0], values) + BlockIssues(fs[1..], values)
  }

  function IssuesOf(b: Block): seq<Str> { BlockIssues(Fields(b.kind), b.values) }

  function FlatMap<T, U>(f: T -> seq<U>, s: seq<T>): seq<U> {
    if s == [] then [] else f(s[0]) + FlatMap(f, s[1..])
  }

  function Validate(bs: seq<Block>): seq<Str> {
    FlatMap(IssuesOf, bs)
  }

  // ------------------------------------------------------------- the schema

  /** The selectors permitted on one target. */
  datatype Permission = Permission(address: Str, selectors: seq<Str>)

  /** A policy as the schema yields it. */
  datatype PolicyFile = PolicyFile(
    name: Str, chains: seq<SafeInt>, allow: seq<Str>, permissions: seq<Permission>,
    perIntent: Decimal, perWindow: Decimal, windowSeconds: SafeInt, maxIntents: SafeInt, maxGas: Decimal,
    holdValue: Decimal, unknown: bool, schedule: Option<(SafeInt, SafeInt)>, maxApproval: Decimal,
    minInvariants: SafeInt)

  predicate HexTail(s: Str) { forall i :: 2 <= i < |s| ==> HexValue(s[i]).Some? }

  predicate IsAddress(s: Str) { |s| == 42 && s[0] == '0' as int && s[1] == 'x' as int && HexTail(s) }

  predicate IsFourBytes(s: Str) { |s| == 10 && s[0] == '0' as int && s[1] == 'x' as int && HexTail(s) }

  /** 0x and forty hexadecimal digits, and 0x and eight. */
  lemma AddressTexts(digits: Str)
    ensures IsAddress(S("0x") + digits) <==> |digits| == 40 && forall i :: 0 <= i < 40 ==> HexValue(digits[i]).Some?
    ensures IsFourBytes(S("0x") + digits) <==> |digits| == 8 && forall i :: 0 <= i < 8 ==> HexValue(digits[i]).Some?
  {
    var s := S("0x") + digits;
    assert s[0] == '0' as int && s[1] == 'x' as int;
    if HexTail(s) {
      forall i | 0 <= i < |digits| ensures HexValue(digits[i]).Some? { assert s[i + 2] == digits[i]; }
    }
    assert (forall i :: 0 <= i < |digits| ==> HexValue(digits[i]).Some?) ==> HexTail(s) by {
      assert forall i :: 2 <= i < |s| ==> s[i] == digits[i - 2];
    }
  }

  const ANY: Str := S("*")

  predicate ValidPermission(q: Permission) {
    IsAddress(q.address) && forall i :: 0 <= i < |q.selectors| ==> IsFourBytes(q.selectors[i]) || q.selectors[i] == ANY
  }

  predicate Valid(p: PolicyFile) {
    && p.name != [] && p.chains != [] && p.windowSeconds > 0 && p.maxIntents > 0 && p.minInvariants >= 0
    && (forall i :: 0 <= i < |p.chains| ==> p.chains[i] > 0)
    && (forall i :: 0 <= i < |p.allow| ==> IsAddress(p.allow[i]))
    && (forall i :: 0 <= i < |p.permissions| ==> ValidPermission(p.permissions[i]))
    && (forall i, j :: 0 <= i < j < |p.permissions| ==> p.permissions[i].address != p.permissions[j].address)
    && (p.schedule.Some? ==> 0 <= p.schedule.value.0 <= 23 && 0 <= p.schedule.value.1 <= 24)
  }

  function Texts(ss: seq<Str>): (r: seq<Json>)
    ensures |r| == |ss| && forall i :: 0 <= i < |r| ==> r[i] == Text(ss[i])
  {
    seq(|ss|, i requires 0 <= i < |ss| => Text(ss[i]))
  }

  function Nums(ns: seq<SafeInt>): (r: seq<Json>)
    ensures |r| == |ns| && forall i :: 0 <= i < |r| ==> r[i] == Num(ns[i])
  {
    seq(|ns|, i requires 0 <= i < |ns| => Num(ns[i]))
  }

  function PermissionMembers(ps: seq<Permission>): (r: seq<Member>)
    ensures |r| == |ps| && forall i :: 0 <= i < |r| ==> r[i] == Member(ps[i].address, Arr(Texts(ps[i].selectors)))
  {
    seq(|ps|, i requires 0 <= i < |ps| => Member(ps[i].address, Arr(Texts(ps[i].selectors))))
  }

  function TargetsDoc(p: PolicyFile): Json {
    Obj([Member(ALLOW, Arr(Texts(p.allow))), Member(SELECTORS, Obj(PermissionMembers(p.permissions)))])
  }

  function LimitsOf(p: PolicyFile, maxGas: Str): Json {
    Obj([Member(VALUE_PER_INTENT, Text(p.perIntent)), Member(VALUE_PER_WINDOW, Text(p.perWindow)),
         Member(WINDOW_SECONDS, Num(p.windowSeconds)), Member(INTENTS_PER_WINDOW, Num(p.maxIntents)),
         Member(MAX_GAS, Text(maxGas))])
  }

  function HoldOf(p: PolicyFile, unknown: bool): Json {
    Obj([Member(NATIVE_VALUE, Text(p.holdValue)), Member(UNKNOWN, Bool(unknown))])
  }

  function Head(p: PolicyFile): seq<Member> {
    [Member(VERSION, Num(1)), Member(NAME, Text(p.name)), Member(CHAINS, Arr(Nums(p.chains))),
     Member(TARGETS, TargetsDoc(p)), Member(LIMITS, LimitsOf(p, p.maxGas)), Member(HOLD_ABOVE, HoldOf(p, p.unknown))]
  }

  function Tail(p: PolicyFile): seq<Member> {
    [Member(APPROVALS, Obj([Member(MAX_APPROVAL, Text(p.maxApproval))])), Member(MIN_INVARIANTS, Num(p.minInvariants))]
  }

  function HoursDoc(hours: (SafeInt, SafeInt)): Json { Obj([Member(HOURS, Arr([Num(hours.0), Num(hours.1)]))]) }

  function Scheduled(p: PolicyFile): seq<Member> {
    match p.schedule
    case None => []
    case Some(hours) => [Member(SCHEDULE, HoursDoc(hours))]
  }

  /** The document of a policy, members in schema order. */
  function DocOf(p: PolicyFile): seq<Member> { Head(p) + Scheduled(p) + Tail(p) }

  predicate TargetsParse(ts: seq<Member>, p: PolicyFile) {
    && Field(ts, ALLOW) == Some(Arr(Texts(p.allow)))
    && match Field(ts, SELECTORS)
       case None => p.permissions == []
       case Some(v) => v == Obj(PermissionMembers(p.permissions))
  }

  predicate LimitsParse(ls: seq<Member>, p: PolicyFile) {
    && Field(ls, VALUE_PER_INTENT) == Some(Text(p.perIntent)) && Field(ls, VALUE_PER_WINDOW) == Some(Text(p.perWindow))
    && Field(ls, WINDOW_SECONDS) == Some(Num(p.windowSeconds))
    && Field(ls, INTENTS_PER_WINDOW) == Some(Num(p.maxIntents))
    && Field(ls, MAX_GAS) == Some(Text(p.maxGas))
  }

  predicate HoldParses(hs: seq<Member>, p: PolicyFile) {
    && Field(hs, NATIVE_VALUE) == Some(Text(p.holdValue))
    && match Field(hs, UNKNOWN)
       case None => p.unknown
       case Some(v) => v == Bool(p.unknown)
  }

  predicate ScheduleParses(doc: seq<Member>, p: PolicyFile) {
    match Field(doc, SCHEDULE)
    case None => p.schedule.None?
    case Some(_) =>
      p.schedule.Some?
      && Field(Nested(doc, SCHEDULE), HOURS) == Some(Arr([Num(p.schedule.value.0), Num(p.schedule.value.1)]))
  }

  predicate TopParses(doc: seq<Member>, p: PolicyFile) {
    && Field(doc, VERSION) == Some(Num(1)) && Field(doc, NAME) == Some(Text(p.name))
    && Field(doc, CHAINS) == Some(Arr(Nums(p.chains)))
    && match Field(doc, MIN_INVARIANTS)
       case None => p.minInvariants == 1
       case Some(v) => v == Num(p.minInvariants)
  }

  /** The schema accepts the document and yields the policy. Member order does not matter, and
      absent members have their defaults. */
  predicate ParsesTo(doc: seq<Member>, p: PolicyFile) {
    && TopParses(doc, p) && ScheduleParses(doc, p)
    && TargetsParse(Nested(doc, TARGETS), p) && LimitsParse(Nested(doc, LIMITS), p)
    && HoldParses(Nested(doc, HOLD_ABOVE), p)
    && Field(Nested(doc, APPROVALS), MAX_APPROVAL) == Some(Text(p.maxApproval))
  }

  function NonEmpty(ps: seq<Permission>): seq<Permission> {
    if ps == [] then []
    else NonEmpty(ps[..|ps| - 1]) + if ps[|ps| - 1].selectors == [] then [] else [ps[|ps| - 1]]
  }

  /** What of a policy survives the canvas. */
  function Kept(p: PolicyFile): PolicyFile {
    p.(schedule := None, permissions := NonEmpty(p.permissions), name := if Blank(p.name) then DEFAULT_NAME else p.name)
  }

  // ---------------------------------------------------------- trimmed already

  lemma TrimStartKeeps(s: Str)
    requires forall i :: 0 <= i < |s| ==> !IsSpace(s[i])
    ensures Trim(s) == s
  {
  }

  lemma HexTextTrimmed(s: Str)
    requires |s| >= 2 && s[0] == '0' as int && s[1] == 'x' as int && HexTail(s)
    ensures Trim(s) == s
  {
    forall i | 0 <= i < |s| ensures !IsSpace(s[i]) {
      if i >= 2 { assert HexValue(s[i]).Some?; }
    }
    TrimStartKeeps(s);
  }

  lemma SelectorTrimmed(s: Str)
    requires IsFourBytes(s) || s == ANY
    ensures Trim(s) == s && s != []
  {
    if IsFourBytes(s) { HexTextTrimmed(s); } else { TrimStartKeeps(s); }
  }

  lemma DecimalTrimmed(s: Decimal)
    ensures Trim(s) == s && s != []
  {
    TrimStartKeeps(s);
  }

  lemma NumberBack(n: SafeInt)
    requires n >= 0
    ensures NumberOf(EmitNum(n)) == Num(n) && Trim(EmitNum(n)) == EmitNum(n) && EmitNum(n) != []
  {
    BigDec(n);
    DecimalTrimmed(Dec(n));
  }

  // ------------------------------------------------------------ the two lists

  lemma TextsSnoc(ss: seq<Str>)
    requires ss != []
    ensures Texts(ss)[..|ss| - 1] == Texts(ss[..|ss| - 1]) && Texts(ss)[|ss| - 1] == Text(ss[|ss| - 1])
    ensures Texts(ss) == Texts(ss[..|ss| - 1]) + [Text(ss[|ss| - 1])]
  {
  }

  lemma AllowSnoc(bs: seq<Block>, b: Block)
    ensures AllowList(bs + [b])
         == AllowList(bs) + (if Value(Some(b), ADDRESS, []) == [] then [] else [Text(Value(Some(b), ADDRESS, []))])
  {
    assert (bs + [b])[..|bs|] == bs;
  }

  lemma TargetValue(a: Str)
    requires IsAddress(a)
    ensures Value(Some(NewBlock(Target, map[ADDRESS := a])), ADDRESS, []) == a
  {
    HexTextTrimmed(a);
  }

  lemma {:induction false} AllowBack(allow: seq<Str>)
    requires forall i :: 0 <= i < |allow| ==> IsAddress(allow[i])
    ensures AllowList(TargetBlocks(Texts(allow))) == Texts(allow)
  {
    if allow != [] {
      var init, a := allow[..|allow| - 1], allow[|allow| - 1];
      AllowBack(init);
      TextsSnoc(allow);
      TargetValue(a);
      AllowSnoc(TargetBlocks(Texts(init)), NewBlock(Target, map[ADDRESS := a]));
    }
  }

  lemma SelectorMapSnoc(bs: seq<Block>, address: Str, code: Str)
    requires IsAddress(address) && (IsFourBytes(code) || code == ANY)
    ensures SelectorMap(bs + [NewBlock(Selector, map[ADDRESS := address, SELECTOR := code])])
         == AddSelector(SelectorMap(bs), address, code)
  {
    var b := NewBlock(Selector, map[ADDRESS := address, SELECTOR := code]);
    assert (bs + [b])[..|bs|] == bs;
    HexTextTrimmed(address);
    SelectorTrimmed(code);
    assert |ADDRESS| == 7 && |SELECTOR| == 8;
    assert b.values[ADDRESS] == address && b.values[SELECTOR] == code;
  }

  lemma {:induction false} FindLast(ms: seq<Member>, m: Member)
    requires Find(ms, m.key).None?
    ensures Find(ms + [m], m.key) == Some(|ms|)
  {
    if ms != [] {
      assert (ms + [m])[1..] == ms[1..] + [m];
      FindLast(ms[1..], m);
    }
  }

  /** A new address opens a list, the address just opened gets its list extended. */
  lemma AddSelectorNew(ms: seq<Member>, address: Str, code: Str)
    requires Find(ms, address).None?
    ensures AddSelector(ms, address, code) == ms + [Member(address, Arr([Text(code)]))]
  {
  }

  lemma AddSelectorMore(ms: seq<Member>, address: Str, codes: seq<Json>, code: Str)
    requires Find(ms, address).None?
    ensures AddSelector(ms + [Member(address, Arr(codes))], address, code)
         == ms + [Member(address, Arr(codes + [Text(code)]))]
  {
    FindLast(ms, Member(address, Arr(codes)));
  }

  lemma SelectorBlocksSnoc(address: Str, selectors: seq<Str>)
    requires selectors != []
    ensures SelectorBlocksOn(address, Texts(selectors)) ==
      SelectorBlocksOn(address, Texts(selectors[..|selectors| - 1]))
      + [NewBlock(Selector, map[ADDRESS := address, SELECTOR := selectors[|selectors| - 1]])]
  {
    TextsSnoc(selectors);
  }

  /** The list of an address, absent while it is empty. */
  function ListOf(address: Str, selectors: seq<Str>): seq<Member> {
    if selectors == [] then [] else [Member(address, Arr(Texts(selectors)))]
  }

  lemma ListGrows(ms: seq<Member>, address: Str, selectors: seq<Str>)
    requires selectors != [] && Find(ms, address).None?
    ensures AddSelector(ms + ListOf(address, selectors[..|selectors| - 1]), address, selectors[|selectors| - 1])
         == ms + ListOf(address, selectors)
  {
    var init, code := selectors[..|selectors| - 1], selectors[|selectors| - 1];
    TextsSnoc(selectors);
    if init == [] {
      assert Texts(selectors) == [Text(code)];
      assert ms + [] == ms;
      AddSelectorNew(ms, address, code);
    } else {
      AddSelectorMore(ms, address, Texts(init), code);
    }
  }

  lemma OneMoreSelector(bs: seq<Block>, address: Str, selectors: seq<Str>)
    requires selectors != [] && IsAddress(address) && Find(SelectorMap(bs), address).None?
    requires IsFourBytes(selectors[|selectors| - 1]) || selectors[|selectors| - 1] == ANY
    requires SelectorMap(bs + SelectorBlocksOn(address, Texts(selectors[..|selectors| - 1])))
          == SelectorMap(bs) + ListOf(address, selectors[..|selectors| - 1])
    ensures SelectorMap(bs + SelectorBlocksOn(address, Texts(selectors)))
      == SelectorMap(bs) + ListOf(address, selectors)
  {
    var placed, code := SelectorBlocksOn(address, Texts(selectors[..|selectors| - 1])), selectors[|selectors| - 1];
    SelectorBlocksSnoc(address, selectors);
    Assoc(bs, placed, [NewBlock(Selector, map[ADDRESS := address, SELECTOR := code])]);
    SelectorMapSnoc(bs + placed, address, code);
    ListGrows(SelectorMap(bs), address, selectors);
  }

  lemma {:induction false} SelectorsOnBack(bs: seq<Block>, address: Str, selectors: seq<Str>)
    requires IsAddress(address) && Find(SelectorMap(bs), address).None?
    requires forall i :: 0 <= i < |selectors| ==> IsFourBytes(selectors[i]) || selectors[i] == ANY
    ensures SelectorMap(bs + SelectorBlocksOn(address, Texts(selectors)))
      == SelectorMap(bs) + ListOf(address, selectors)
    decreases |selectors|
  {
    if selectors == [] {
      Parts(bs, []);
      Parts(SelectorMap(bs), []);
    } else {
      SelectorsOnBack(bs, address, selectors[..|selectors| - 1]);
      OneMoreSelector(bs, address, selectors);
    }
  }

  lemma {:induction false} NonEmptyAre(ps: seq<Permission>)
    ensures forall q :: q in NonEmpty(ps) <==> q in ps && q.selectors != []
  {
    if ps != [] {
      NonEmptyAre(ps[..|ps| - 1]);
      assert ps == ps[..|ps| - 1] + [ps[|ps| - 1]];
    }
  }

  lemma NotYetThere(ps: seq<Permission>, address: Str)
    requires forall i :: 0 <= i < |ps| ==> ps[i].address != address
    ensures Find(PermissionMembers(NonEmpty(ps)), address).None?
  {
    var ms := PermissionMembers(NonEmpty(ps));
    NonEmptyAre(ps);
    forall i | 0 <= i < |ms| ensures ms[i].key != address { assert NonEmpty(ps)[i] in ps; }
  }

  lemma PermissionsSnoc(ps: seq<Permission>)
    requires ps != []
    ensures PermissionMembers(ps)[..|ps| - 1] == PermissionMembers(ps[..|ps| - 1])
  {
  }

  lemma MembersConcat(a: seq<Permission>, b: seq<Permission>)
    ensures PermissionMembers(a + b) == PermissionMembers(a) + PermissionMembers(b)
  {
  }

  lemma NonEmptyMembers(ps: seq<Permission>)
    requires ps != []
    ensures var q := ps[|ps| - 1];
      PermissionMembers(NonEmpty(ps)) == PermissionMembers(NonEmpty(ps[..|ps| - 1])) + ListOf(q.address, q.selectors)
  {
    var q := ps[|ps| - 1];
    var last := if q.selectors == [] then [] else [q];
    MembersConcat(NonEmpty(ps[..|ps| - 1]), last);
    assert PermissionMembers(last) == ListOf(q.address, q.selectors);
  }

  /** The selector blocks of a policy compile to its non-empty lists, addresses in the same order. */
  lemma {:induction false} SelectorsBack(ps: seq<Permission>)
    requires forall i :: 0 <= i < |ps| ==> ValidPermission(ps[i])
    requires forall i, j :: 0 <= i < j < |ps| ==> ps[i].address != ps[j].address
    ensures SelectorMap(SelectorBlocks(PermissionMembers(ps))) == PermissionMembers(NonEmpty(ps))
  {
    if ps != [] {
      var init, q := ps[..|ps| - 1], ps[|ps| - 1];
      SelectorsBack(init);
      PermissionsSnoc(ps);
      NotYetThere(init, q.address);
      SelectorsOnBack(SelectorBlocks(PermissionMembers(init)), q.address, q.selectors);
      NonEmptyMembers(ps);
    }
  }

  // --------------------------------------------------------- the placed blocks

  function CapBlock(p: PolicyFile): Block { NewBlock(ValueCap, map[PER_INTENT := p.perIntent]) }

  function RateBlock(p: PolicyFile): Block {
    NewBlock(RateLimit, map[MAX_VALUE := p.perWindow, WINDOW_SECONDS := EmitNum(p.windowSeconds),
                            MAX_INTENTS := EmitNum(p.maxIntents)])
  }

  function ApprovalBlock(p: PolicyFile): Block { NewBlock(ApprovalBound, map[MAX_APPROVAL := p.maxApproval]) }

  function HoldBlock(p: PolicyFile): Block { NewBlock(HoldAbove, map[NATIVE_VALUE := p.holdValue]) }

  function Singles(p: PolicyFile): seq<Block> { [CapBlock(p), RateBlock(p), ApprovalBlock(p), HoldBlock(p)] }

  function Lists(p: PolicyFile): seq<Block> {
    TargetBlocks(Texts(p.allow)) + SelectorBlocks(PermissionMembers(p.permissions))
  }

  lemma TargetsPlaced(ts: seq<Member>, p: PolicyFile)
    requires TargetsParse(ts, p)
    ensures TargetsPart(ts) == Lists(p)
  {
  }

  lemma LimitsPlaced(ls: seq<Member>, p: PolicyFile)
    requires LimitsParse(ls, p)
    ensures LimitsPart(ls) == [CapBlock(p)] + [RateBlock(p)]
  {
  }

  lemma OnePlaced(ms: seq<Member>, key: Str, kind: Kind, v: Str)
    requires Field(ms, key) == Some(Text(v))
    ensures TextPart(ms, key, kind, key) == [NewBlock(kind, map[key := v])]
  {
  }

  lemma FourInARow<T>(x: seq<T>, a: T, b: T, c: T, d: T)
    ensures x + ([a] + [b]) + [c] + [d] == x + [a, b, c, d]
  {
  }

  lemma BlocksPlaced(doc: seq<Member>, p: PolicyFile)
    requires ParsesTo(doc, p)
    ensures BlocksOf(doc) == Lists(p) + Singles(p)
  {
    TargetsPlaced(Nested(doc, TARGETS), p);
    LimitsPlaced(Nested(doc, LIMITS), p);
    OnePlaced(Nested(doc, APPROVALS), MAX_APPROVAL, ApprovalBound, p.maxApproval);
    OnePlaced(Nested(doc, HOLD_ABOVE), NATIVE_VALUE, HoldAbove, p.holdValue);
    FourInARow(Lists(p), CapBlock(p), RateBlock(p), ApprovalBlock(p), HoldBlock(p));
  }

  ghost predicate AllOf(bs: seq<Block>, k: Kind) { forall i :: 0 <= i < |bs| ==> bs[i].kind == k }

  lemma {:induction false} TargetsOnly(allow: seq<Json>)
    ensures AllOf(TargetBlocks(allow), Target)
  {
    if allow != [] { TargetsOnly(allow[..|allow| - 1]); }
  }

  lemma {:induction false} SelectorsOnly(address: Str, sels: seq<Json>)
    ensures AllOf(SelectorBlocksOn(address, sels), Selector)
  {
    if sels != [] { SelectorsOnly(address, sels[..|sels| - 1]); }
  }

  lemma {:induction false} AllSelectors(ms: seq<Member>)
    ensures AllOf(SelectorBlocks(ms), Selector)
  {
    if ms != [] {
      AllSelectors(ms[..|ms| - 1]);
      if ms[|ms| - 1].value.Arr? { SelectorsOnly(ms[|ms| - 1].key, ms[|ms| - 1].value.items); }
    }
  }

  lemma {:induction false} OfKindConcat(a: seq<Block>, b: seq<Block>, k: Kind)
    ensures OfKind(a + b, k) == OfKind(a, k) + OfKind(b, k)
  {
    Parts(a, b);
    if a != [] {
      OfKindConcat(a[1..], b, k);
      Assoc(if a[0].kind == k then [a[0]] else [], OfKind(a[1..], k), OfKind(b, k));
    } else {
      assert [] + OfKind(b, k) == OfKind(b, k);
    }
  }

  lemma {:induction false} OfKindAll(bs: seq<Block>, k: Kind, wanted: Kind)
    requires AllOf(bs, k)
    ensures OfKind(bs, wanted) == if k == wanted then bs else []
  {
    if bs != [] {
      OfKindAll(bs[1..], k, wanted);
      assert bs == [bs[0]] + bs[1..];
    }
  }

  lemma {:induction false} OfKindNone(bs: seq<Block>, k: Kind)
    requires forall i :: 0 <= i < |bs| ==> bs[i].kind != k
    ensures OfKind(bs, k) == []
  {
    if bs != [] { OfKindNone(bs[1..], k); }
  }

  lemma {:induction false} FirstSkips(a: seq<Block>, b: seq<Block>, k: Kind)
    requires forall i :: 0 <= i < |a| ==> a[i].kind != k
    ensures First(a + b, k) == First(b, k)
  {
    Parts(a, b);
    if a != [] { FirstSkips(a[1..], b, k); }
  }

  lemma {:induction false} NoInvariants(bs: seq<Block>)
    requires forall i :: 0 <= i < |bs| ==> !IsInvariant(bs[i].kind)
    ensures InvariantCount(bs) == 0
  {
    if bs != [] { NoInvariants(bs[1..]); }
  }

  lemma ListKinds(p: PolicyFile)
    ensures forall i :: 0 <= i < |Lists(p)| ==> Lists(p)[i].kind == Target || Lists(p)[i].kind == Selector
  {
    TargetsOnly(Texts(p.allow));
    AllSelectors(PermissionMembers(p.permissions));
  }

  lemma FourBlocks(a: Block, b: Block, c: Block, d: Block, k: Kind)
    ensures First([a, b, c, d], k) ==
      if a.kind == k then Some(a) else if b.kind == k then Some(b)
      else if c.kind == k then Some(c) else if d.kind == k then Some(d) else None
    ensures a.kind != k && b.kind != k && c.kind != k && d.kind != k ==> OfKind([a, b, c, d], k) == []
  {
    assert [a, b, c, d][1..] == [b, c, d] && [b, c, d][1..] == [c, d] && [c, d][1..] == [d] && [d][1..] == [];
    assert First([d], k) == if d.kind == k then Some(d) else None;
    assert First([c, d], k) == if c.kind == k then Some(c) else First([d], k);
    assert First([b, c, d], k) == if b.kind == k then Some(b) else First([c, d], k);
    if a.kind != k && b.kind != k && c.kind != k && d.kind != k { OfKindNone([a, b, c, d], k); }
  }

  lemma PlacedOfKind(ts: seq<Block>, ss: seq<Block>, rest: seq<Block>, k: Kind)
    requires AllOf(ts, Target) && AllOf(ss, Selector) && OfKind(rest, k) == []
    ensures k == Target ==> OfKind(ts + ss + rest, k) == ts
    ensures k == Selector ==> OfKind(ts + ss + rest, k) == ss
  {
    OfKindConcat(ts + ss, rest, k);
    OfKindConcat(ts, ss, k);
    OfKindAll(ts, Target, k);
    OfKindAll(ss, Selector, k);
    Parts(ts, []);
    Parts([], ss);
    Parts(ss, []);
  }

  lemma PlacedLists(p: PolicyFile)
    ensures OfKind(Lists(p) + Singles(p), Target) == TargetBlocks(Texts(p.allow))
    ensures OfKind(Lists(p) + Singles(p), Selector) == SelectorBlocks(PermissionMembers(p.permissions))
  {
    var ts, ss := TargetBlocks(Texts(p.allow)), SelectorBlocks(PermissionMembers(p.permissions));
    TargetsOnly(Texts(p.allow));
    AllSelectors(PermissionMembers(p.permissions));
    FourBlocks(CapBlock(p), RateBlock(p), ApprovalBlock(p), HoldBlock(p), Target);
    FourBlocks(CapBlock(p), RateBlock(p), ApprovalBlock(p), HoldBlock(p), Selector);
    PlacedOfKind(ts, ss, Singles(p), Target);
    PlacedOfKind(ts, ss, Singles(p), Selector);
  }

  lemma PlacedFirst(p: PolicyFile, k: Kind)
    requires k != Target && k != Selector
    ensures First(Lists(p) + Singles(p), k) ==
      match k
      case ValueCap => Some(CapBlock(p))
      case RateLimit => Some(RateBlock(p))
      case ApprovalBound => Some(ApprovalBlock(p))
      case HoldAbove => Some(HoldBlock(p))
      case _ => None
  {
    ListKinds(p);
    FirstSkips(Lists(p), Singles(p), k);
    FourBlocks(CapBlock(p), RateBlock(p), ApprovalBlock(p), HoldBlock(p), k);
  }

  lemma {:induction false} InvariantConcat(a: seq<Block>, b: seq<Block>)
    ensures InvariantCount(a + b) == InvariantCount(a) + InvariantCount(b)
  {
    Parts(a, b);
    if a != [] { InvariantConcat(a[1..], b); }
  }

  lemma PlacedInvariants(p: PolicyFile)
    ensures InvariantCount(Lists(p) + Singles(p)) == 0
  {
    ListKinds(p);
    NoInvariants(Lists(p));
    NoInvariants(Singles(p));
    InvariantConcat(Lists(p), Singles(p));
  }

  // ------------------------------------------------------------ the base document

  /** The compiled document before anything is carried over. */
  function BaseOf(p: PolicyFile): seq<Member> {
    [Member(VERSION, Num(1)), Member(NAME, Text(DEFAULT_NAME)), Member(CHAINS, Arr([Num(11155111)])),
     Member(TARGETS, TargetsDoc(Kept(p))), Member(LIMITS, LimitsOf(p, DEFAULT_GAS)), 
     Member(HOLD_ABOVE, HoldOf(p, true)),
     Member(APPROVALS, Obj([Member(MAX_APPROVAL, Text(p.maxApproval))])), Member(MIN_INVARIANTS, Num(1))]
  }

  lemma OneValue(kind: Kind, key: Str, v: Decimal)
    ensures Value(Some(NewBlock(kind, map[key := v])), key, ZERO) == v
  {
    DecimalTrimmed(v);
  }

  lemma SingleValues(p: PolicyFile)
    ensures Value(Some(CapBlock(p)), PER_INTENT, ZERO) == p.perIntent
    ensures Value(Some(ApprovalBlock(p)), MAX_APPROVAL, ZERO) == p.maxApproval
    ensures Value(Some(HoldBlock(p)), NATIVE_VALUE, ZERO) == p.holdValue
  {
    OneValue(ValueCap, PER_INTENT, p.perIntent);
    OneValue(ApprovalBound, MAX_APPROVAL, p.maxApproval);
    OneValue(HoldAbove, NATIVE_VALUE, p.holdValue);
  }

  lemma RateTexts(p: PolicyFile)
    ensures RateBlock(p).values[MAX_VALUE] == p.perWindow
    ensures RateBlock(p).values[WINDOW_SECONDS] == EmitNum(p.windowSeconds)
    ensures RateBlock(p).values[MAX_INTENTS] == EmitNum(p.maxIntents)
  {
    assert |MAX_VALUE| == 8 && |WINDOW_SECONDS| == 13 && |MAX_INTENTS| == 10;
  }

  lemma RateValues(p: PolicyFile)
    requires p.windowSeconds >= 0 && p.maxIntents >= 0
    ensures Value(Some(RateBlock(p)), MAX_VALUE, ZERO) == p.perWindow
    ensures NumberOf(Value(Some(RateBlock(p)), WINDOW_SECONDS, HOUR)) == Num(p.windowSeconds)
    ensures NumberOf(Value(Some(RateBlock(p)), MAX_INTENTS, ONE)) == Num(p.maxIntents)
  {
    DecimalTrimmed(p.perWindow);
    NumberBack(p.windowSeconds);
    NumberBack(p.maxIntents);
    RateTexts(p);
  }

  lemma BaseBack(p: PolicyFile)
    requires Valid(p)
    ensures BaseDoc(Lists(p) + Singles(p)) == BaseOf(p)
  {
    PlacedLists(p);
    PlacedFirst(p, ValueCap);
    PlacedFirst(p, RateLimit);
    PlacedFirst(p, ApprovalBound);
    PlacedFirst(p, HoldAbove);
    PlacedInvariants(p);
    AllowBack(p.allow);
    SelectorsBack(p.permissions);
    SingleValues(p);
    RateValues(p);
  }

  // ------------------------------------------------------------------ merging

  const DOC_KEYS: seq<Str> := [VERSION, NAME, CHAINS, TARGETS, LIMITS, HOLD_ABOVE, APPROVALS, MIN_INVARIANTS]

  ghost predicate Keyed(ms: seq<Member>) { |ms| == 8 && forall i :: 0 <= i < 8 ==> ms[i].key == DOC_KEYS[i] }

  lemma KeyedUnique(ms: seq<Member>)
    requires Keyed(ms)
    ensures UniqueKeys(ms)
  {
    var firsts := ['v', 'n', 'c', 't', 'l', 'h', 'a', 'm'];
    forall i | 0 <= i < 8 ensures DOC_KEYS[i] != [] && DOC_KEYS[i][0] == firsts[i] as int {
    }
    forall i, j | 0 <= i < j < 8 ensures ms[i].key != ms[j].key {
      assert firsts[i] != firsts[j];
    }
  }

  lemma SetAt(ms: seq<Member>, i: nat, v: Json)
    requires Keyed(ms) && i < 8
    ensures Field(ms, DOC_KEYS[i]) == Some(ms[i].value)
    ensures SetMember(ms, DOC_KEYS[i], v) == ms[i := Member(DOC_KEYS[i], v)]
    ensures Keyed(ms[i := Member(DOC_KEYS[i], v)])
  {
    KeyedUnique(ms);
    FindUnique(ms, i);
    assert ms[i].key == DOC_KEYS[i];
  }

  lemma {:induction false} MergeConcat(t: seq<Member>, a: seq<Member>, b: seq<Member>)
    ensures Merge(t, a + b) == Merge(Merge(t, a), b)
    decreases |a|
  {
    Parts(a, b);
    if a != [] { MergeConcat(MergeOne(t, a[0]), a[1..], b); }
  }

  lemma MergeSingle(t: seq<Member>, m: Member)
    ensures Merge(t, [m]) == MergeOne(t, m)
  {
    assert [m][1..] == [];
    assert Merge(MergeOne(t, m), []) == MergeOne(t, m);
  }

  /** A plain value replaces the member. */
  lemma MergePlain(ms: seq<Member>, i: nat, v: Json)
    requires Keyed(ms) && i < 8 && !v.Obj?
    ensures Merge(ms, [Member(DOC_KEYS[i], v)]) == ms[i := Member(DOC_KEYS[i], v)]
  {
    MergeSingle(ms, Member(DOC_KEYS[i], v));
    SetAt(ms, i, v);
  }

  /** A record with one plain member replaces that member of the record it meets. */
  lemma MergeNested(ms: seq<Member>, i: nat, inner: Member)
    requires Keyed(ms) && i < 8 && ms[i].value.Obj? && !inner.value.Obj?
    ensures Merge(ms, [Member(DOC_KEYS[i], Obj([inner]))])
         == ms[i := Member(DOC_KEYS[i], Obj(SetMember(ms[i].value.members, inner.key, inner.value)))]
  {
    var m := Member(DOC_KEYS[i], Obj([inner]));
    MergeSingle(ms, m);
    MergeSingle(ms[i].value.members, inner);
    SetAt(ms, i, Obj(SetMember(ms[i].value.members, inner.key, inner.value)));
  }

  lemma GasReplaced(p: PolicyFile, gas: Str)
    ensures SetMember(LimitsOf(p, gas).members, MAX_GAS, Text(p.maxGas)) == LimitsOf(p, p.maxGas).members
  {
    var ms := LimitsOf(p, gas).members;
    assert |ms[0].key| == 23 && |ms[1].key| == 23 && |ms[2].key| == 13 && |ms[3].key| == 19 && |MAX_GAS| == 6;
    assert Find(ms, MAX_GAS) == Some(4) by {
      assert ms[4].key == MAX_GAS;
      var i := Find(ms, MAX_GAS);
      assert i.Some?;
      assert i.value == 4;
    }
  }

  lemma UnknownReplaced(p: PolicyFile)
    ensures SetMember(HoldOf(p, true).members, UNKNOWN, Bool(p.unknown)) == HoldOf(p, p.unknown).members
  {
    var ms := HoldOf(p, true).members;
    assert |ms[0].key| == 11 && |UNKNOWN| == 19;
    assert ms[1..][0] == ms[1];
  }

  /** A document with the members a policy keeps in blocks, given the rest. */
  function Filled(p: PolicyFile, name: Str, chains: seq<Json>, gas: Str, unknown: bool, min: SafeInt): seq<Member> {
    [Member(VERSION, Num(1)), Member(NAME, Text(name)), Member(CHAINS, Arr(chains)),
     Member(TARGETS, TargetsDoc(Kept(p))), Member(LIMITS, LimitsOf(p, gas)), Member(HOLD_ABOVE, HoldOf(p, unknown)),
     Member(APPROVALS, Obj([Member(MAX_APPROVAL, Text(p.maxApproval))])), Member(MIN_INVARIANTS, Num(min))]
  }

  lemma FilledKeyed(p: PolicyFile, name: Str, chains: seq<Json>, gas: Str, unknown: bool, min: SafeInt)
    ensures Keyed(Filled(p, name, chains, gas, unknown, min))
  {
  }

  lemma MergeChains(p: PolicyFile, name: Str, before: seq<Json>, chains: seq<Json>, gas: Str, unknown: bool,
                    min: SafeInt)
    ensures Merge(Filled(p, name, before, gas, unknown, min), [Member(CHAINS, Arr(chains))])
         == Filled(p, name, chains, gas, unknown, min)
  {
    FilledKeyed(p, name, before, gas, unknown, min);
    MergePlain(Filled(p, name, before, gas, unknown, min), 2, Arr(chains));
  }

  lemma MergeGas(p: PolicyFile, name: Str, chains: seq<Json>, gas: Str, unknown: bool, min: SafeInt)
    ensures Merge(Filled(p, name, chains, gas, unknown, min), [Member(LIMITS, Obj([Member(MAX_GAS, Text(p.maxGas))]))])
         == Filled(p, name, chains, p.maxGas, unknown, min)
  {
    FilledKeyed(p, name, chains, gas, unknown, min);
    GasReplaced(p, gas);
    MergeNested(Filled(p, name, chains, gas, unknown, min), 4, Member(MAX_GAS, Text(p.maxGas)));
  }

  lemma MergeUnknown(p: PolicyFile, name: Str, chains: seq<Json>, gas: Str, min: SafeInt)
    ensures Merge(Filled(p, name, chains, gas, true, min),
                  [Member(HOLD_ABOVE, Obj([Member(UNKNOWN, Bool(p.unknown))]))])
         == Filled(p, name, chains, gas, p.unknown, min)
  {
    FilledKeyed(p, name, chains, gas, true, min);
    UnknownReplaced(p);
    MergeNested(Filled(p, name, chains, gas, true, min), 5, Member(UNKNOWN, Bool(p.unknown)));
  }

  lemma MergeMin(p: PolicyFile, name: Str, chains: seq<Json>, gas: Str, unknown: bool, before: SafeInt, min: SafeInt)
    ensures Merge(Filled(p, name, chains, gas, unknown, before), [Member(MIN_INVARIANTS, Num(min))])
         == Filled(p, name, chains, gas, unknown, min)
  {
    FilledKeyed(p, name, chains, gas, unknown, before);
    MergePlain(Filled(p, name, chains, gas, unknown, before), 7, Num(min));
  }

  /** What is carried over of a policy whose document has or has not the two optional members. */
  function CarryOf(p: PolicyFile, hasUnknown: bool, hasMin: bool): seq<Member> {
    [Member(CHAINS, Arr(Nums(p.chains)))] + [Member(LIMITS, Obj([Member(MAX_GAS, Text(p.maxGas))]))]
    + (if hasUnknown then [Member(HOLD_ABOVE, Obj([Member(UNKNOWN, Bool(p.unknown))]))] else [])
    + (if hasMin then [Member(MIN_INVARIANTS, Num(p.minInvariants))] else [])
  }

  lemma CarriedOver(doc: seq<Member>, p: PolicyFile)
    requires ParsesTo(doc, p) && p.chains != []
    ensures CarryOver(doc)
         == CarryOf(p, Field(Nested(doc, HOLD_ABOVE), UNKNOWN).Some?, Field(doc, MIN_INVARIANTS).Some?)
  {
    assert Nums(p.chains) != [];
  }

  /** Everything carried over falls into place. */
  lemma CarryBack(p: PolicyFile, name: Str, hasUnknown: bool, hasMin: bool)
    requires (!hasUnknown ==> p.unknown) && (!hasMin ==> p.minInvariants == 1)
    ensures Merge(Filled(p, name, [Num(11155111)], DEFAULT_GAS, true, 1), CarryOf(p, hasUnknown, hasMin))
         == Filled(p, name, Nums(p.chains), p.maxGas, p.unknown, p.minInvariants)
  {
    var base := Filled(p, name, [Num(11155111)], DEFAULT_GAS, true, 1);
    var a: seq<Member> := [Member(CHAINS, Arr(Nums(p.chains)))];
    var b: seq<Member> := [Member(LIMITS, Obj([Member(MAX_GAS, Text(p.maxGas))]))];
    var c: seq<Member> := if hasUnknown then [Member(HOLD_ABOVE, Obj([Member(UNKNOWN, Bool(p.unknown))]))] else [];
    var d: seq<Member> := if hasMin then [Member(MIN_INVARIANTS, Num(p.minInvariants))] else [];
    MergeConcat(base, a + b + c, d);
    MergeConcat(base, a + b, c);
    MergeConcat(base, a, b);
    MergeChains(p, name, [Num(11155111)], Nums(p.chains), DEFAULT_GAS, true, 1);
    MergeGas(p, name, Nums(p.chains), DEFAULT_GAS, true, 1);
    if hasUnknown { MergeUnknown(p, name, Nums(p.chains), p.maxGas, 1); }
    if hasMin { MergeMin(p, name, Nums(p.chains), p.maxGas, p.unknown, 1, p.minInvariants); }
  }

  // -------------------------------------------------------------- main results

  lemma NameSet(p: PolicyFile)
    ensures Titled(BaseOf(p), None, Some(p.name))
         == Filled(p, Kept(p).name, [Num(11155111)], DEFAULT_GAS, true, 1)
  {
    var base := Filled(p, DEFAULT_NAME, [Num(11155111)], DEFAULT_GAS, true, 1);
    assert BaseOf(p) == base;
    FilledKeyed(p, DEFAULT_NAME, [Num(11155111)], DEFAULT_GAS, true, 1);
    SetAt(base, 1, Text(p.name));
  }

  lemma NamedBack(p: PolicyFile)
    requires Valid(p)
    ensures Named(Lists(p) + Singles(p), Some(p.name)) == Filled(p, Kept(p).name, [Num(11155111)], DEFAULT_GAS, true, 1)
  {
    BaseBack(p);
    PlacedFirst(p, Schedule);
    NameSet(p);
  }

  lemma FilledIsKept(p: PolicyFile)
    ensures Filled(p, Kept(p).name, Nums(p.chains), p.maxGas, p.unknown, p.minInvariants) == DocOf(Kept(p))
  {
    var k := Kept(p);
    assert Filled(p, k.name, Nums(p.chains), p.maxGas, p.unknown, p.minInvariants) == Head(k) + [] + Tail(k);
  }

  /** Opening any schema-valid document on the canvas and compiling it under its name gives the
      document, members in schema order, of what the canvas keeps of the policy: all of it but the
      schedule, the empty selector lists, and a name that is only white space. */
  lemma CompilesBack(doc: seq<Member>, p: PolicyFile)
    requires Valid(p) && ParsesTo(doc, p)
    ensures Compile(BlocksOf(doc), Some(p.name), Some(CarryOver(doc))) == DocOf(Kept(p))
  {
    BlocksPlaced(doc, p);
    NamedBack(p);
    CarriedOver(doc, p);
    CarryBack(p, Kept(p).name, Field(Nested(doc, HOLD_ABOVE), UNKNOWN).Some?, Field(doc, MIN_INVARIANTS).Some?);
    FilledIsKept(p);
  }

  // ------------------------------------------------- blocks that no document has

  lemma SetField(ms: seq<Member>, key: Str, v: Json, k: Str)
    ensures Field(SetMember(ms, key, v), k) == if k == key then Some(v) else Field(ms, k)
  {
    match Find(ms, key)
    case None => FieldInFront(ms, [Member(key, v)], k);
    case Some(i) => ReplaceField(ms, i, v, k);
  }

  lemma {:induction false} ReplaceField(ms: seq<Member>, i: nat, v: Json, k: Str)
    requires Find(ms, if i < |ms| then ms[i].key else []) == Some(i)
    ensures Field(ms[i := Member(ms[i].key, v)], k) == if k == ms[i].key then Some(v) else Field(ms, k)
  {
    var after := ms[i := Member(ms[i].key, v)];
    if i > 0 {
      assert after[1..] == ms[1..][i - 1 := Member(ms[i].key, v)];
      ReplaceField(ms[1..], i - 1, v, k);
    } else {
      assert after[1..] == ms[1..];
    }
  }

  /** The documents agree in every member but one. */
  ghost predicate SameButFor(a: seq<Member>, b: seq<Member>, key: Str) {
    forall k :: k != key ==> Field(a, k) == Field(b, k)
  }

  lemma SetOther(a: seq<Member>, b: seq<Member>, key: Str, other: Str, v: Json)
    requires SameButFor(a, b, key) && other != key
    ensures SameButFor(SetMember(a, other, v), SetMember(b, other, v), key)
    ensures Field(SetMember(a, other, v), key) == Field(a, key)
  {
    SetField(a, other, v, key);
    forall k | k != key ensures Field(SetMember(a, other, v), k) == Field(SetMember(b, other, v), k) {
      SetField(a, other, v, k);
      SetField(b, other, v, k);
    }
  }

  lemma MergeOneOther(a: seq<Member>, b: seq<Member>, key: Str, m: Member)
    requires SameButFor(a, b, key) && m.key != key
    ensures SameButFor(MergeOne(a, m), MergeOne(b, m), key) && Field(MergeOne(a, m), key) == Field(a, key)
  {
    match (Field(a, m.key), m.value)
    case (Some(Obj(inner)), Obj(more)) => SetOther(a, b, key, m.key, Obj(Merge(inner, more)));
    case _ => SetOther(a, b, key, m.key, m.value);
  }

  lemma {:induction false} MergeOther(a: seq<Member>, b: seq<Member>, key: Str, extra: seq<Member>)
    requires SameButFor(a, b, key) && forall i :: 0 <= i < |extra| ==> extra[i].key != key
    ensures SameButFor(Merge(a, extra), Merge(b, extra), key) && Field(Merge(a, extra), key) == Field(a, key)
    decreases |extra|
  {
    if extra != [] {
      MergeOneOther(a, b, key, extra[0]);
      assert forall i :: 0 <= i < |extra| - 1 ==> extra[1..][i] == extra[i + 1];
      MergeOther(MergeOne(a, extra[0]), MergeOne(b, extra[0]), key, extra[1..]);
    }
  }

  lemma CarryKeys(doc: seq<Member>)
    ensures forall i :: 0 <= i < |CarryOver(doc)| ==> CarryOver(doc)[i].key != SCHEDULE
  {
    assert SCHEDULE[0] == 's' as int && CHAINS[0] == 'c' as int && LIMITS[0] == 'l' as int;
    assert HOLD_ABOVE[0] == 'h' as int && MIN_INVARIANTS[0] == 'm' as int;
  }

  function HoursBlock(hours: (SafeInt, SafeInt)): Block {
    NewBlock(Schedule, map[START_HOUR := EmitNum(hours.0), END_HOUR := EmitNum(hours.1)])
  }

  lemma HoursBack(hours: (SafeInt, SafeInt))
    requires hours.0 >= 0 && hours.1 >= 0
    ensures ScheduleDoc(HoursBlock(hours)) == HoursDoc(hours)
  {
    NumberBack(hours.0);
    NumberBack(hours.1);
    HoursValues(hours);
  }

  lemma OfKindIgnores(bs: seq<Block>, b: Block, k: Kind)
    requires b.kind != k
    ensures OfKind(bs + [b], k) == OfKind(bs, k)
  {
    OfKindConcat(bs, [b], k);
    OfKindNone([b], k);
    Parts(OfKind(bs, k), []);
  }

  lemma CountIgnores(bs: seq<Block>, b: Block)
    requires !IsInvariant(b.kind)
    ensures InvariantCount(bs + [b]) == InvariantCount(bs)
  {
    InvariantConcat(bs, [b]);
    NoInvariants([b]);
  }

  lemma BaseIgnoresSchedule(bs: seq<Block>, b: Block)
    requires b.kind == Schedule
    ensures BaseDoc(bs + [b]) == BaseDoc(bs)
  {
    OfKindIgnores(bs, b, Target);
    OfKindIgnores(bs, b, Selector);
    FirstIgnores(bs, b, ValueCap);
    FirstIgnores(bs, b, RateLimit);
    FirstIgnores(bs, b, HoldAbove);
    FirstIgnores(bs, b, ApprovalBound);
    CountIgnores(bs, b);
  }

  lemma {:induction false} FirstIgnores(bs: seq<Block>, b: Block, k: Kind)
    requires b.kind != k
    ensures First(bs + [b], k) == First(bs, k)
  {
    if bs == [] {
      assert (bs + [b])[1..] == [];
    } else {
      Parts(bs, [b]);
      FirstIgnores(bs[1..], b, k);
    }
  }

  lemma TitledSchedule(base: seq<Member>, b: Block, name: Option<Str>)
    ensures SameButFor(Titled(base, Some(b), name), Titled(base, None, name), SCHEDULE)
    ensures Field(Titled(base, Some(b), name), SCHEDULE) == Some(ScheduleDoc(b))
  {
    var scheduled := SetMember(base, SCHEDULE, ScheduleDoc(b));
    forall k ensures Field(scheduled, k) == if k == SCHEDULE then Some(ScheduleDoc(b)) else Field(base, k) {
      SetField(base, SCHEDULE, ScheduleDoc(b), k);
    }
    assert NAME[0] == 'n' as int && SCHEDULE[0] == 's' as int;
    if name.Some? && !Blank(name.value) { SetOther(scheduled, base, SCHEDULE, NAME, Text(name.value)); }
  }

  lemma ScheduleNested(doc: seq<Member>, hours: (SafeInt, SafeInt))
    requires Field(doc, SCHEDULE) == Some(HoursDoc(hours))
    ensures Field(Nested(doc, SCHEDULE), HOURS) == Some(Arr([Num(hours.0), Num(hours.1)]))
  {
    FieldAt(HoursDoc(hours).members, 0);
  }

  lemma StillParses(doc: seq<Member>, p: PolicyFile)
    requires Valid(p) && ParsesTo(doc, p)
    ensures ParsesTo(Compile(BlocksOf(doc), Some(p.name), Some(CarryOver(doc))), Kept(p))
  {
    CompilesBack(doc, p);
    DocParses(Kept(p));
  }

  lemma NoSchedulePlaced(doc: seq<Member>, p: PolicyFile)
    requires ParsesTo(doc, p)
    ensures First(BlocksOf(doc), Schedule).None?
  {
    BlocksPlaced(doc, p);
    PlacedFirst(p, Schedule);
  }

  /** A schedule block changes the schedule of the document and nothing else. */
  lemma ScheduleOnly(bs: seq<Block>, b: Block, name: Str, extra: seq<Member>)
    requires b.kind == Schedule && First(bs, Schedule).None?
    requires forall i :: 0 <= i < |extra| ==> extra[i].key != SCHEDULE
    ensures SameButFor(Compile(bs + [b], Some(name), Some(extra)), Compile(bs, Some(name), Some(extra)), SCHEDULE)
    ensures Field(Compile(bs + [b], Some(name), Some(extra)), SCHEDULE) == Some(ScheduleDoc(b))
  {
    NoneBefore(bs, b);
    BaseIgnoresSchedule(bs, b);
    TitledSchedule(BaseDoc(bs), b, Some(name));
    MergeOther(Named(bs + [b], Some(name)), Named(bs, Some(name)), SCHEDULE, extra);
  }

  /** A schedule block put on the canvas beside a policy's own blocks compiles to that policy with
      those hours, the start first. */
  lemma ScheduleCompiles(doc: seq<Member>, p: PolicyFile, hours: (SafeInt, SafeInt))
    requires Valid(p) && ParsesTo(doc, p) && hours.0 >= 0 && hours.1 >= 0
    ensures ParsesTo(Compile(BlocksOf(doc) + [HoursBlock(hours)], Some(p.name), Some(CarryOver(doc))),
                     Kept(p).(schedule := Some(hours)))
  {
    var bs, b, extra := BlocksOf(doc), HoursBlock(hours), CarryOver(doc);
    var with, without := Compile(bs + [b], Some(p.name), Some(extra)), Compile(bs, Some(p.name), Some(extra));
    NoSchedulePlaced(doc, p);
    CarryKeys(doc);
    ScheduleOnly(bs, b, p.name, extra);
    HoursBack(hours);
    ScheduleNested(with, hours);
    StillParses(doc, p);
    OtherPartsParse(with, without, Kept(p), hours);
  }

  lemma {:induction false} NoneBefore(bs: seq<Block>, b: Block)
    requires First(bs, b.kind).None?
    ensures First(bs + [b], b.kind) == Some(b)
  {
    Parts(bs, [b]);
    if bs != [] { NoneBefore(bs[1..], b); }
  }

  lemma NotTheSchedule(i: nat)
    requires i < 8
    ensures DOC_KEYS[i] != SCHEDULE
  {
    var firsts := ['v', 'n', 'c', 't', 'l', 'h', 'a', 'm'];
    assert DOC_KEYS[i][0] == firsts[i] as int && SCHEDULE[0] == 's' as int;
  }

  lemma SameOther(a: seq<Member>, b: seq<Member>, i: nat)
    requires SameButFor(a, b, SCHEDULE) && i < 8
    ensures Field(a, DOC_KEYS[i]) == Field(b, DOC_KEYS[i]) && Nested(a, DOC_KEYS[i]) == Nested(b, DOC_KEYS[i])
  {
    NotTheSchedule(i);
  }

  lemma OtherPartsParse(a: seq<Member>, b: seq<Member>, p: PolicyFile, hours: (SafeInt, SafeInt))
    requires SameButFor(a, b, SCHEDULE) && ParsesTo(b, p)
    requires Field(a, SCHEDULE).Some? && Field(Nested(a, SCHEDULE), HOURS) == Some(Arr([Num(hours.0), Num(hours.1)]))
    ensures ParsesTo(a, p.(schedule := Some(hours)))
  {
    SameOther(a, b, 0);
    SameOther(a, b, 1);
    SameOther(a, b, 2);
    SameOther(a, b, 3);
    SameOther(a, b, 4);
    SameOther(a, b, 5);
    SameOther(a, b, 6);
    SameOther(a, b, 7);
  }

  lemma BaseKeyed(bs: seq<Block>)
    ensures Keyed(BaseDoc(bs)) && Field(BaseDoc(bs), MIN_INVARIANTS) == Some(MinInvariantsDoc(InvariantCount(bs)))
  {
    var base := BaseDoc(bs);
    forall i | 0 <= i < 8 ensures base[i].key == DOC_KEYS[i] {
    }
    SetAt(base, 7, Null);
  }

  lemma TitledKeepsMinimum(base: seq<Member>, schedule: Option<Block>, name: Option<Str>)
    ensures Field(Titled(base, schedule, name), MIN_INVARIANTS) == Field(base, MIN_INVARIANTS)
  {
    NotTheSchedule(7);
    assert MIN_INVARIANTS[0] == 'm' as int && NAME[0] == 'n' as int;
    var scheduled := match schedule case None => base case Some(b) => SetMember(base, SCHEDULE, ScheduleDoc(b));
    if schedule.Some? { SetField(base, SCHEDULE, ScheduleDoc(schedule.value), MIN_INVARIANTS); }
    if name.Some? && !Blank(name.value) { SetField(scheduled, NAME, Text(name.value), MIN_INVARIANTS); }
  }

  /** One required invariant is asked for even without a block, and otherwise as many as there are
      invariant blocks. */
  lemma InvariantsRequired(bs: seq<Block>, name: Option<Str>, n: SafeInt)
    requires n == |OfKind(bs, InvariantFloor)| + |OfKind(bs, InvariantDrop)|
    ensures Field(Named(bs, name), MIN_INVARIANTS) == Some(Num(if n == 0 then 1 else n))
  {
    InvariantsCounted(bs);
    NamedMinimum(bs, name, n);
    MinimumMeans(n);
  }

  lemma NamedMinimum(bs: seq<Block>, name: Option<Str>, n: nat)
    requires InvariantCount(bs) == n
    ensures Field(Named(bs, name), MIN_INVARIANTS) == Some(MinInvariantsDoc(n))
  {
    BaseKeyed(bs);
    TitledKeepsMinimum(BaseDoc(bs), First(bs, Schedule), name);
  }

  lemma MinimumMeans(n: nat)
    ensures n <= 0x1F_FFFF_FFFF_FFFF ==> MinInvariantsDoc(n) == Num(if n == 0 then 1 else n)
  {
  }

  lemma {:induction false} InvariantsCounted(bs: seq<Block>)
    ensures InvariantCount(bs) == |OfKind(bs, InvariantFloor)| + |OfKind(bs, InvariantDrop)| <= |bs|
  {
    if bs != [] { InvariantsCounted(bs[1..]); }
  }

  /** What an empty canvas compiles to. */
  function EmptyPolicy(): PolicyFile {
    PolicyFile(DEFAULT_NAME, [11155111], [], [], ZERO, ZERO, 3600, 1, DEFAULT_GAS, ZERO, true, None, ZERO, 1)
  }

  /** Without any block the canvas compiles to a policy that allows no target, no value and no approval,
      whatever the defaults of its fields. */
  lemma EmptyCanvas()
    ensures ParsesTo(Compile([], None, None), EmptyPolicy())
  {
    DocParses(EmptyPolicy());
    EmptyBase();
    NothingAdded();
  }

  lemma NothingAdded()
    ensures Compile([], None, None) == BaseDoc([])
  {
    assert First([], Schedule).None?;
  }

  lemma EmptyBase()
    ensures BaseDoc([]) == DocOf(EmptyPolicy())
  {
    var e := EmptyPolicy();
    EmptyLists(e);
    EmptyLimits();
    assert Scheduled(e) == [];
    assert Head(e) + [] == Head(e);
    assert First([], ValueCap).None? && First([], RateLimit).None? && First([], HoldAbove).None?;
    assert First([], ApprovalBound).None? && InvariantCount([]) == 0;
    assert |e.chains| == 1 && Nums(e.chains)[0] == Num(11155111);
    assert Nums(e.chains) == [Num(11155111)];
    assert BaseDoc([])[..6] == Head(e);
    assert BaseDoc([])[6..] == Tail(e);
  }

  lemma EmptyLists(e: PolicyFile)
    requires e.allow == [] && e.permissions == []
    ensures TargetsDoc(e) ==
      Obj([Member(ALLOW, Arr(AllowList(OfKind([], Target)))),
           Member(SELECTORS, Obj(SelectorMap(OfKind([], Selector))))])
  {
    EmptyTexts();
  }

  lemma EmptyLimits()
    ensures LimitsDoc(None, None) == LimitsOf(EmptyPolicy(), DEFAULT_GAS)
  {
    HourValues();
  }

  lemma EmptyTexts()
    ensures Texts([]) == [] && PermissionMembers([]) == [] && Nums([11155111]) == [Num(11155111)]
  {
  }

  lemma HourValues()
    ensures NumberOf(HOUR) == Num(3600) && NumberOf(ONE) == Num(1)
  {
    assert Dec(3600) == HOUR by {
      assert Dec(3) == [51] && Dec(36) == Dec(3) + [54] && Dec(360) == Dec(36) + [48] && Dec(3600) == Dec(360) + [48];
    }
    NumberBack(3600);
    assert Dec(1) == ONE;
    NumberBack(1);
  }

  // ---------------------------------------------------- when nothing is lost

  lemma DocFirstLetters(p: PolicyFile, firsts: seq<char>)
    requires firsts == if p.schedule.Some?
                       then ['v', 'n', 'c', 't', 'l', 'h', 's', 'a', 'm']
                       else ['v', 'n', 'c', 't', 'l', 'h', 'a', 'm']
    ensures |DocOf(p)| == |firsts|
    ensures forall j :: 0 <= j < |firsts| ==> DocOf(p)[j].key != [] && DocOf(p)[j].key[0] == firsts[j] as int
  {
  }

  lemma DocFound(p: PolicyFile, i: nat)
    requires i < |DocOf(p)|
    ensures Field(DocOf(p), DocOf(p)[i].key) == Some(DocOf(p)[i].value)
  {
    var firsts := if p.schedule.Some?
                  then ['v', 'n', 'c', 't', 'l', 'h', 's', 'a', 'm']
                  else ['v', 'n', 'c', 't', 'l', 'h', 'a', 'm'];
    DocFirstLetters(p, firsts);
    forall j | 0 <= j < i ensures DocOf(p)[j].key[0] != DocOf(p)[i].key[0] {
      assert firsts[j] != firsts[i];
    }
    FieldAt(DocOf(p), i);
  }

  lemma NoScheduleFound(p: PolicyFile)
    requires p.schedule.None?
    ensures Field(DocOf(p), SCHEDULE) == None
  {
    var firsts := ['v', 'n', 'c', 't', 'l', 'h', 'a', 'm'];
    DocFirstLetters(p, firsts);
    forall i | 0 <= i < |DocOf(p)| ensures DocOf(p)[i].key != SCHEDULE {
      assert SCHEDULE[0] == 's' as int;
    }
  }

  lemma LimitsKeysUnique(p: PolicyFile)
    ensures UniqueKeys(LimitsOf(p, p.maxGas).members)
  {
    var ms := LimitsOf(p, p.maxGas).members;
    assert VALUE_PER_INTENT[17] == 'I' as int && VALUE_PER_WINDOW[17] == 'W' as int;
    var sizes := [23, 23, 13, 19, 6];
    forall i | 0 <= i < 5 ensures |ms[i].key| == sizes[i] {
    }
    forall i, j | 0 <= i < j < 5 ensures ms[i].key != ms[j].key {
      if j == 1 { assert ms[i].key[17] != ms[j].key[17]; } else { assert sizes[i] != sizes[j]; }
    }
  }

  lemma LimitsDocParses(p: PolicyFile)
    ensures LimitsParse(LimitsOf(p, p.maxGas).members, p)
  {
    var ms := LimitsOf(p, p.maxGas).members;
    LimitsKeysUnique(p);
    FindUnique(ms, 0);
    FindUnique(ms, 1);
    FindUnique(ms, 2);
    FindUnique(ms, 3);
    FindUnique(ms, 4);
  }

  lemma PartsParse(p: PolicyFile)
    ensures TargetsParse(TargetsDoc(p).members, p) && HoldParses(HoldOf(p, p.unknown).members, p)
  {
    var ts, hs := TargetsDoc(p).members, HoldOf(p, p.unknown).members;
    assert |ts[0].key| == 5 && |ts[1].key| == 9 && |hs[0].key| == 11 && |hs[1].key| == 19;
    FieldAt(ts, 0);
    FieldAt(ts, 1);
    FieldAt(hs, 0);
    FieldAt(hs, 1);
  }

  lemma ScheduleDocParses(p: PolicyFile)
    ensures ScheduleParses(DocOf(p), p)
  {
    if p.schedule.Some? {
      DocFound(p, 6);
      assert DocOf(p)[6] == Scheduled(p)[0];
      var inner := HoursDoc(p.schedule.value).members;
      FieldAt(inner, 0);
    } else {
      NoScheduleFound(p);
    }
  }

  lemma HeadFound(p: PolicyFile, i: nat)
    requires i < 6
    ensures Field(DocOf(p), Head(p)[i].key) == Some(Head(p)[i].value)
  {
    DocFound(p, i);
    assert DocOf(p)[i] == Head(p)[i];
  }

  lemma TailFound(p: PolicyFile, i: nat)
    requires i < 2
    ensures Field(DocOf(p), Tail(p)[i].key) == Some(Tail(p)[i].value)
  {
    DocFound(p, |DocOf(p)| - 2 + i);
    assert DocOf(p)[|DocOf(p)| - 2 + i] == Tail(p)[i];
  }

  lemma TopDocParses(p: PolicyFile)
    ensures TopParses(DocOf(p), p)
  {
    HeadFound(p, 0);
    HeadFound(p, 1);
    HeadFound(p, 2);
    TailFound(p, 1);
  }

  lemma NestedParts(p: PolicyFile)
    ensures Nested(DocOf(p), TARGETS) == TargetsDoc(p).members
    ensures Nested(DocOf(p), LIMITS) == LimitsOf(p, p.maxGas).members
    ensures Nested(DocOf(p), HOLD_ABOVE) == HoldOf(p, p.unknown).members
    ensures Nested(DocOf(p), APPROVALS) == [Member(MAX_APPROVAL, Text(p.maxApproval))]
  {
    HeadFound(p, 3);
    HeadFound(p, 4);
    HeadFound(p, 5);
    TailFound(p, 0);
  }

  /** The schema reads the document of a policy as that policy. */
  lemma DocParses(p: PolicyFile)
    ensures ParsesTo(DocOf(p), p)
  {
    TopDocParses(p);
    NestedParts(p);
    LimitsDocParses(p);
    PartsParse(p);
    ScheduleDocParses(p);
    FieldAt([Member(MAX_APPROVAL, Text(p.maxApproval))], 0);
  }

  lemma TextsInjective(a: seq<Str>, b: seq<Str>)
    requires Texts(a) == Texts(b)
    ensures a == b
  {
    assert |Texts(a)| == |Texts(b)|;
    forall i | 0 <= i < |a| ensures a[i] == b[i] { assert Texts(a)[i] == Texts(b)[i]; }
  }

  lemma PermissionsInjective(a: seq<Permission>, b: seq<Permission>)
    requires PermissionMembers(a) == PermissionMembers(b)
    ensures a == b
  {
    assert |PermissionMembers(a)| == |PermissionMembers(b)|;
    forall i | 0 <= i < |a| ensures a[i] == b[i] {
      assert PermissionMembers(a)[i] == PermissionMembers(b)[i];
      TextsInjective(a[i].selectors, b[i].selectors);
    }
  }

  lemma {:induction false} NonEmptyWhole(ps: seq<Permission>)
    requires forall i :: 0 <= i < |ps| ==> ps[i].selectors != []
    ensures NonEmpty(ps) == ps
  {
    if ps != [] {
      NonEmptyWhole(ps[..|ps| - 1]);
      assert ps == ps[..|ps| - 1] + [ps[|ps| - 1]];
    }
  }

  lemma {:induction false} NonEmptyShorter(ps: seq<Permission>)
    ensures |NonEmpty(ps)| <= |ps|
    ensures (exists i :: 0 <= i < |ps| && ps[i].selectors == []) ==> |NonEmpty(ps)| < |ps|
  {
    if ps != [] { NonEmptyShorter(ps[..|ps| - 1]); }
  }

  lemma NonEmptyIsAll(ps: seq<Permission>)
    ensures NonEmpty(ps) == ps <==> forall i :: 0 <= i < |ps| ==> ps[i].selectors != []
  {
    NonEmptyShorter(ps);
    if forall i :: 0 <= i < |ps| ==> ps[i].selectors != [] { NonEmptyWhole(ps); }
  }

  /** What the canvas can represent, checked on the policy itself. */
  predicate Representable(p: PolicyFile) {
    p.schedule.None? && !Blank(p.name) && forall i :: 0 <= i < |p.permissions| ==> p.permissions[i].selectors != []
  }

  lemma KeptExactly(p: PolicyFile)
    ensures Kept(p) == p <==> Representable(p)
  {
    NonEmptyIsAll(p.permissions);
    if Blank(p.name) {
      assert DEFAULT_NAME[0] == 'c' as int;
      assert |DEFAULT_NAME| == 13;
      TrimStartKeeps(DEFAULT_NAME);
    }
  }

  lemma DocDiffers(p: PolicyFile)
    requires DocOf(Kept(p)) == DocOf(p)
    ensures Kept(p) == p
  {
    var k := Kept(p);
    assert |DocOf(k)| == 8;
    assert |DocOf(p)| == if p.schedule.Some? then 9 else 8;
    assert DocOf(p)[1] == Head(p)[1] && DocOf(k)[1] == Head(k)[1];
    assert DocOf(p)[3] == Head(p)[3] && DocOf(k)[3] == Head(k)[3];
    assert TargetsDoc(p).members[1] == TargetsDoc(k).members[1];
    PermissionsInjective(p.permissions, k.permissions);
  }

  /** The round trip returns the policy's own document exactly if the canvas can represent it: no
      schedule, no empty selector list, a name that is not blank. */
  lemma RoundTripExactly(p: PolicyFile)
    requires Valid(p)
    ensures Compile(BlocksOf(DocOf(p)), Some(p.name), Some(CarryOver(DocOf(p)))) == DocOf(p) <==> Representable(p)
  {
    DocParses(p);
    CompilesBack(DocOf(p), p);
    KeptExactly(p);
    if DocOf(Kept(p)) == DocOf(p) { DocDiffers(p); }
  }

  // ------------------------------------------------------------- what it decides

  function PermissionMap(ps: seq<Permission>): map<Str, seq<Str>> {
    if ps == [] then map[] else PermissionMap(ps[..|ps| - 1])[ps[|ps| - 1].address := ps[|ps| - 1].selectors]
  }

  /** The policy as the VM evaluates it. */
  function ToPolicy(p: PolicyFile): Policy.Policy
    requires Valid(p)
  {
    Policy.Policy(
      p.name, p.chains, Policy.Targets(p.allow, PermissionMap(p.permissions)),
      Policy.Limits(p.perIntent, p.perWindow, p.windowSeconds, p.maxIntents, p.maxGas),
      Policy.HoldAbove(p.holdValue, p.unknown),
      (match p.schedule
       case None => None
       case Some(hours) => Some(Policy.Schedule(hours.0, hours.1))),
      p.maxApproval, p.minInvariants)
  }

  lemma {:induction false} NonEmptySublist(ps: seq<Permission>)
    requires forall i :: 0 <= i < |ps| ==> ValidPermission(ps[i])
    requires forall i, j :: 0 <= i < j < |ps| ==> ps[i].address != ps[j].address
    ensures forall i :: 0 <= i < |NonEmpty(ps)| ==> ValidPermission(NonEmpty(ps)[i])
    ensures forall i, j :: 0 <= i < j < |NonEmpty(ps)| ==> NonEmpty(ps)[i].address != NonEmpty(ps)[j].address
  {
    if ps != [] {
      var init, q := ps[..|ps| - 1], ps[|ps| - 1];
      NonEmptySublist(init);
      forall i | 0 <= i < |NonEmpty(init)| ensures NonEmpty(init)[i].address != q.address {
        NonEmptyAre(init);
        assert NonEmpty(init)[i] in init;
      }
    }
  }

  lemma KeptValid(p: PolicyFile)
    requires Valid(p)
    ensures Valid(Kept(p))
  {
    NonEmptySublist(p.permissions);
    assert |DEFAULT_NAME| == 13;
  }

  /** Without a schedule and without an empty selector list the whole decision, reasons included,
      is the same after the round trip on every intent in every context, whatever becomes of the
      name. */
  lemma DecisionKept(p: PolicyFile, i: Intents.Intent, c: Policy.Context)
    requires Valid(p) && p.schedule.None?
    requires forall k :: 0 <= k < |p.permissions| ==> p.permissions[k].selectors != []
    ensures Valid(Kept(p))
    ensures Policy.Decide(Policy.ALL_RULES, i, ToPolicy(Kept(p)), c)
      == Policy.Decide(Policy.ALL_RULES, i, ToPolicy(p), c)
  {
    KeptValid(p);
    NonEmptyIsAll(p.permissions);
    assert ToPolicy(Kept(p)) == ToPolicy(p).(name := Kept(p).name);
    Policy.ProseIgnored(i, ToPolicy(p), c, i.rationale, Kept(p).name);
  }

  lemma {:induction false} MapOf(ps: seq<Permission>, address: Str)
    requires forall i, j :: 0 <= i < j < |ps| ==> ps[i].address != ps[j].address
    ensures address in PermissionMap(ps) <==> exists i :: 0 <= i < |ps| && ps[i].address == address
    ensures forall i :: 0 <= i < |ps| && ps[i].address == address ==>
      address in PermissionMap(ps) && PermissionMap(ps)[address] == ps[i].selectors
  {
    if ps != [] {
      MapOf(ps[..|ps| - 1], address);
      var last := ps[|ps| - 1];
      if i :| 0 <= i < |ps| && ps[i].address == address {
        if i < |ps| - 1 { assert ps[..|ps| - 1][i].address == address; }
      }
    }
  }

  /** The lists that a policy file keeps for the address that is called, however spelled, admit the
      call. */
  ghost predicate ListsAdmit(ps: seq<Permission>, call: Intents.Call) {
    forall q :: q in ps && Lower(q.address) == Lower(call.target) ==> Policy.Admits(q.selectors, call.data)
  }

  lemma PermittedByLists(p: PolicyFile, call: Intents.Call)
    requires Valid(p)
    ensures Policy.SelectorPermitted(ToPolicy(p), call) <==> ListsAdmit(p.permissions, call)
  {
    var ps := p.permissions;
    forall a ensures a in PermissionMap(ps) <==> exists i :: 0 <= i < |ps| && ps[i].address == a { MapOf(ps, a); }
    forall q | q in ps ensures q.address in PermissionMap(ps) && PermissionMap(ps)[q.address] == q.selectors {
      MapOf(ps, q.address);
    }
  }

  /** The same of the lists that are not empty. */
  ghost predicate OthersAdmit(ps: seq<Permission>, call: Intents.Call) {
    forall q :: q in ps && q.selectors != [] && Lower(q.address) == Lower(call.target) ==>
      Policy.Admits(q.selectors, call.data)
  }

  lemma UpperCase(s: Ascii, i: nat)
    requires i < |s| && 'A' <= s[i] <= 'Z'
    ensures Lower(S(s)) != S(s)
  {
    assert S(s)[i] == s[i] as int;
    assert Lower(S(s))[i] == LowerUnit(S(s)[i]) != S(s)[i];
  }

  lemma OneListUnreached(key: Str, entry: seq<Str>)
    requires Lower(key) != key && S("*") !in entry
    ensures !Policy.ListsReach(Policy.Targets([key], map[key := entry]))
  {
    assert !Policy.Reaches(Policy.Targets([key], map[key := entry]), key);
  }

  lemma ContractInMixedCase()
    ensures Lower(CONTRACT) != CONTRACT
  {
    assert CONTRACT_TEXT[3] == 'B';
    UpperCase(CONTRACT_TEXT, 3);
  }

  lemma BorrowIsNoStar()
    ensures S("*") !in [BORROW]
  {
    assert |S("*")| == 1 && |BORROW| == 10;
  }

  /** The list of the example policies does not reach every spelling of its address: the key is in
      mixed case. */
  lemma ExampleListUnreached()
    ensures !Policy.ListsReach(Policy.Targets([CONTRACT], map[CONTRACT := [BORROW]]))
  {
    ContractInMixedCase();
    BorrowIsNoStar();
    OneListUnreached(CONTRACT, [BORROW]);
  }

  /** An empty selector list is not harmless: it forbids every function of its address. The round
      trip drops it, and then only other lists under spellings of the same address forbid any. */
  lemma EmptyListWidens(p: PolicyFile, k: nat, call: Intents.Call)
    requires Valid(p) && k < |p.permissions| && p.permissions[k].selectors == []
    requires Lower(call.target) == Lower(p.permissions[k].address)
    ensures Valid(Kept(p))
    ensures !Policy.SelectorPermitted(ToPolicy(p), call)
    ensures Policy.SelectorPermitted(ToPolicy(Kept(p)), call) <==> OthersAdmit(p.permissions, call)
  {
    KeptValid(p);
    PermittedByLists(p, call);
    PermittedByLists(Kept(p), call);
    NonEmptyAre(p.permissions);
    assert p.permissions[k] in p.permissions && !Policy.Admits(p.permissions[k].selectors, call.data);
  }

  // --------------------------------------------------------- and what it flags

  predicate Fine(b: Block) { IssuesOf(b) == [] }

  predicate Clean(bs: seq<Block>) { Validate(bs) == [] }

  lemma {:induction false} FlatMapConcat<T, U>(f: T -> seq<U>, a: seq<T>, b: seq<T>)
    ensures FlatMap(f, a + b) == FlatMap(f, a) + FlatMap(f, b)
  {
    Parts(a, b);
    if a == [] {
      Parts([], FlatMap(f, b));
    } else {
      FlatMapConcat(f, a[1..], b);
      Assoc(f(a[0]), FlatMap(f, a[1..]), FlatMap(f, b));
    }
  }

  lemma FlatMapOne<T, U>(f: T -> seq<U>, x: T)
    ensures FlatMap(f, [x]) == f(x)
  {
    assert [x][1..] == [] && FlatMap(f, []) == [];
    Parts(f(x), []);
  }

  lemma FlatMapFour<T, U>(f: T -> seq<U>, a: T, b: T, c: T, d: T)
    requires f(a) == [] && f(b) == [] && f(c) == [] && f(d) == []
    ensures FlatMap(f, [a, b, c, d]) == []
  {
    FlatMapOne(f, a);
    FlatMapOne(f, b);
    FlatMapOne(f, c);
    FlatMapOne(f, d);
    FlatMapConcat(f, [a], [b]);
    FlatMapConcat(f, [c], [d]);
    FlatMapConcat(f, [a] + [b], [c] + [d]);
    assert [a, b, c, d] == ([a] + [b]) + ([c] + [d]);
  }

  lemma CleanConcat(a: seq<Block>, b: seq<Block>)
    ensures Clean(a + b) <==> Clean(a) && Clean(b)
  {
    FlatMapConcat(IssuesOf, a, b);
  }

  lemma OneClean(b: Block)
    ensures Clean([b]) <==> Fine(b)
  {
    FlatMapOne(IssuesOf, b);
  }

  lemma OneIssue(f: FieldSpec, values: map<Str, Str>)
    ensures BlockIssues([f], values) == FieldIssue(f, values)
  {
    assert [f][1..] == [];
    assert BlockIssues([], values) == [];
  }

  lemma TwoIssues(f: FieldSpec, g: FieldSpec, values: map<Str, Str>)
    ensures BlockIssues([f, g], values) == FieldIssue(f, values) + FieldIssue(g, values)
  {
    assert [f, g][1..] == [g];
    OneIssue(g, values);
  }

  lemma TargetClean(a: Str)
    requires IsAddress(a)
    ensures Clean([NewBlock(Target, map[ADDRESS := a])])
  {
    HexTextTrimmed(a);
    OneIssue(FieldSpec(ADDRESS, Address, CONTRACT), NewBlock(Target, map[ADDRESS := a]).values);
    OneClean(NewBlock(Target, map[ADDRESS := a]));
  }

  lemma SelectorClean(address: Str, code: Str)
    requires IsAddress(address) && (IsFourBytes(code) || code == ANY)
    ensures Clean([NewBlock(Selector, map[ADDRESS := address, SELECTOR := code])]) <==> code != ANY
  {
    var b := NewBlock(Selector, map[ADDRESS := address, SELECTOR := code]);
    var f, g := Fields(Selector)[0], Fields(Selector)[1];
    HexTextTrimmed(address);
    SelectorTrimmed(code);
    assert |ADDRESS| == 7 && |SELECTOR| == 8 && |ANY| == 1;
    assert b.values[ADDRESS] == address && b.values[SELECTOR] == code;
    assert FieldIssue(f, b.values) == [];
    assert FieldIssue(g, b.values) == if code == ANY then [SELECTOR] else [];
    TwoIssues(f, g, b.values);
    assert Fields(b.kind) == [f, g];
    OneClean(b);
  }

  lemma {:induction false} TargetsClean(allow: seq<Str>)
    requires forall i :: 0 <= i < |allow| ==> IsAddress(allow[i])
    ensures Clean(TargetBlocks(Texts(allow)))
  {
    if allow != [] {
      TargetsClean(allow[..|allow| - 1]);
      TextsSnoc(allow);
      TargetClean(allow[|allow| - 1]);
      CleanConcat(TargetBlocks(Texts(allow[..|allow| - 1])), [NewBlock(Target, map[ADDRESS := allow[|allow| - 1]])]);
    }
  }

  lemma InSnoc(ss: seq<Str>, x: Str)
    requires ss != []
    ensures x in ss <==> x in ss[..|ss| - 1] || x == ss[|ss| - 1]
  {
    assert ss == ss[..|ss| - 1] + [ss[|ss| - 1]];
  }

  lemma OneMoreClean(address: Str, selectors: seq<Str>)
    requires selectors != [] && IsAddress(address)
    requires IsFourBytes(selectors[|selectors| - 1]) || selectors[|selectors| - 1] == ANY
    ensures Clean(SelectorBlocksOn(address, Texts(selectors))) <==>
      Clean(SelectorBlocksOn(address, Texts(selectors[..|selectors| - 1]))) && selectors[|selectors| - 1] != ANY
  {
    var code := selectors[|selectors| - 1];
    SelectorBlocksSnoc(address, selectors);
    SelectorClean(address, code);
    CleanConcat(SelectorBlocksOn(address, Texts(selectors[..|selectors| - 1])),
                [NewBlock(Selector, map[ADDRESS := address, SELECTOR := code])]);
  }

  lemma {:induction false} PermissionClean(address: Str, selectors: seq<Str>)
    requires IsAddress(address) && forall i :: 0 <= i < |selectors| ==> IsFourBytes(selectors[i]) || selectors[i] == ANY
    ensures Clean(SelectorBlocksOn(address, Texts(selectors))) <==> ANY !in selectors
    decreases |selectors|
  {
    if selectors != [] {
      PermissionClean(address, selectors[..|selectors| - 1]);
      OneMoreClean(address, selectors);
      InSnoc(selectors, ANY);
    }
  }

  predicate NoneAny(ps: seq<Permission>) { forall i :: 0 <= i < |ps| ==> ANY !in ps[i].selectors }

  lemma NoneAnySnoc(ps: seq<Permission>)
    requires ps != []
    ensures NoneAny(ps) <==> NoneAny(ps[..|ps| - 1]) && ANY !in ps[|ps| - 1].selectors
  {
  }

  lemma PlacedSnoc(ps: seq<Permission>)
    requires ps != []
    ensures var init, q := ps[..|ps| - 1], ps[|ps| - 1];
      SelectorBlocks(PermissionMembers(ps))
      == SelectorBlocks(PermissionMembers(init)) + SelectorBlocksOn(q.address, Texts(q.selectors))
  {
    PermissionsSnoc(ps);
  }

  lemma {:induction false} PermissionsClean(ps: seq<Permission>)
    requires forall i :: 0 <= i < |ps| ==> ValidPermission(ps[i])
    ensures Clean(SelectorBlocks(PermissionMembers(ps))) <==> NoneAny(ps)
  {
    if ps != [] {
      var init, q := ps[..|ps| - 1], ps[|ps| - 1];
      PermissionsClean(init);
      PlacedSnoc(ps);
      PermissionClean(q.address, q.selectors);
      CleanConcat(SelectorBlocks(PermissionMembers(init)), SelectorBlocksOn(q.address, Texts(q.selectors)));
      NoneAnySnoc(ps);
    }
  }

  lemma FieldFine(f: FieldSpec, values: map<Str, Str>)
    requires f.key in values && values[f.key] != [] && Trim(values[f.key]) == values[f.key]
    requires WellShaped(f.format, values[f.key])
    ensures FieldIssue(f, values) == []
  {
  }

  /** Hours pass the fields up to 24 each, while the schema wants a start before 24. */
  lemma HoursFine(p: PolicyFile, hours: (SafeInt, SafeInt))
    requires Valid(p) && hours.0 >= 0 && hours.1 >= 0
    ensures Fine(HoursBlock(hours)) <==> hours.0 <= 24 && hours.1 <= 24
    ensures Valid(p.(schedule := Some(hours))) <==> hours.0 < 24 && hours.1 <= 24
  {
    var values := HoursBlock(hours).values;
    HoursValues(hours);
    HourIssue(FieldSpec(START_HOUR, Hours, EIGHT), values, hours.0);
    HourIssue(FieldSpec(END_HOUR, Hours, TWENTY), values, hours.1);
    TwoIssues(FieldSpec(START_HOUR, Hours, EIGHT), FieldSpec(END_HOUR, Hours, TWENTY), values);
  }

  lemma HoursValues(hours: (SafeInt, SafeInt))
    ensures var values := HoursBlock(hours).values;
      && START_HOUR in values && values[START_HOUR] == EmitNum(hours.0)
      && END_HOUR in values && values[END_HOUR] == EmitNum(hours.1)
  {
    assert |START_HOUR| == 9 && |END_HOUR| == 7;
  }

  lemma HourIssue(f: FieldSpec, values: map<Str, Str>, hour: SafeInt)
    requires f.format == Hours && hour >= 0 && f.key in values && values[f.key] == EmitNum(hour)
    ensures FieldIssue(f, values) == [] <==> hour <= 24
  {
    BigDec(hour);
    DecimalTrimmed(Dec(hour));
  }

  /** And those hours bind as they stand on the block: clockwise from the start to before the end. */
  lemma HoursBind(p: PolicyFile, hours: (SafeInt, SafeInt), i: Intents.Intent, c: Policy.Context)
    requires Valid(p) && 0 <= hours.0 < 24 && 0 <= hours.1 <= 24
    ensures Valid(p.(schedule := Some(hours)))
    ensures Policy.ScheduleWindow(i, ToPolicy(p.(schedule := Some(hours))), c) == Some([]) <==>
      (Policy.HourUtc(c.now) - hours.0) % 24 < if hours.0 <= hours.1 then hours.1 - hours.0 else hours.1 + 24 - hours.0
  {
    Policy.InsideMeans(Policy.Schedule(hours.0, hours.1), Policy.HourUtc(c.now));
  }

  lemma OneFieldFine(kind: Kind, f: FieldSpec, v: Decimal)
    requires Fields(kind) == [f] && f.format == Uint
    ensures Fine(NewBlock(kind, map[f.key := v]))
  {
    DecimalTrimmed(v);
    FieldFine(f, NewBlock(kind, map[f.key := v]).values);
    OneIssue(f, NewBlock(kind, map[f.key := v]).values);
  }

  lemma ThreeIssues(f: FieldSpec, g: FieldSpec, h: FieldSpec, values: map<Str, Str>)
    ensures BlockIssues([f, g, h], values) == FieldIssue(f, values) + (FieldIssue(g, values) + FieldIssue(h, values))
  {
    assert [f, g, h][1..] == [g, h];
    TwoIssues(g, h, values);
  }

  lemma RateClean(p: PolicyFile)
    requires p.windowSeconds >= 0 && p.maxIntents >= 0
    ensures Fine(RateBlock(p))
  {
    var values := RateBlock(p).values;
    var f, g, h := Fields(RateLimit)[0], Fields(RateLimit)[1], Fields(RateLimit)[2];
    RateTexts(p);
    NumberBack(p.windowSeconds);
    NumberBack(p.maxIntents);
    DecimalTrimmed(p.perWindow);
    FieldFine(f, values);
    FieldFine(g, values);
    FieldFine(h, values);
    ThreeIssues(f, g, h, values);
  }

  /** A policy opened on the canvas shows no field in error exactly if it nowhere permits "*": the
      schema accepts that, the selector field does not. */
  lemma OpenedFieldsValid(doc: seq<Member>, p: PolicyFile)
    requires Valid(p) && ParsesTo(doc, p)
    ensures Validate(BlocksOf(doc)) == [] <==> NoneAny(p.permissions)
  {
    BlocksPlaced(doc, p);
    CleanConcat(Lists(p), Singles(p));
    CleanConcat(TargetBlocks(Texts(p.allow)), SelectorBlocks(PermissionMembers(p.permissions)));
    TargetsClean(p.allow);
    PermissionsClean(p.permissions);
    SinglesClean(p);
  }

  lemma CapClean(p: PolicyFile)
    ensures Fine(CapBlock(p))
  {
    OneFieldFine(ValueCap, FieldSpec(PER_INTENT, Uint, ONE_ETHER), p.perIntent);
  }

  lemma ApprovalClean(p: PolicyFile)
    ensures Fine(ApprovalBlock(p))
  {
    OneFieldFine(ApprovalBound, FieldSpec(MAX_APPROVAL, Uint, ONE_ETHER), p.maxApproval);
  }

  lemma HoldClean(p: PolicyFile)
    ensures Fine(HoldBlock(p))
  {
    OneFieldFine(HoldAbove, FieldSpec(NATIVE_VALUE, Uint, HALF_ETHER), p.holdValue);
  }

  lemma SinglesClean(p: PolicyFile)
    requires p.windowSeconds >= 0 && p.maxIntents >= 0
    ensures Clean(Singles(p))
  {
    CapClean(p);
    RateClean(p);
    ApprovalClean(p);
    HoldClean(p);
    FlatMapFour(IssuesOf, CapBlock(p), RateBlock(p), ApprovalBlock(p), HoldBlock(p));
  }
}
