/** The keeper: how much debt to repay when a position falls below its floor. All amounts are
    non-negative integers and every division rounds down. */
module Keeper {
  import opened Text
  import opened Json
  import opened Intents
  import opened HexNumbers

  const WAD: nat := 1_000_000_000_000_000_000

  // ---------------------------------------------------------- health factor

  /** Collateral at the liquidation threshold of 75%, scaled. */
  function Backing(collateral: nat): nat { collateral * 7500 / 10000 * WAD }

  /** The pool's formula for a position in debt. */
  function HealthFactor(collateral: nat, debt: nat): nat
    requires debt > 0
  {
    Backing(collateral) / debt
  }

  /** `Throws` is the division by a target of zero. */
  datatype Action = Throws | Noop | Repay(amount: nat)

  function Decide(healthFactor: nat, debt: nat, collateral: nat, floor: nat, target: nat): Action {
    if healthFactor >= floor then Noop
    else if target == 0 then Throws
    else
      var debtAtTarget := collateral * 7500 / 10000 * WAD / target;
      var repay := if debt > debtAtTarget then debt - debtAtTarget else 0;
      if repay > 0 then Repay(repay) else Noop
  }

  // ------------------------------------------------------- division, both ways

  /** A quotient is at least q exactly when the divisor fits q times. */
  lemma QuotientAtLeast(a: nat, b: nat, q: nat)
    requires b > 0
    ensures a / b >= q <==> q * b <= a
  {
    var k := a / b;
    assert a == k * b + a % b;
    if k >= q {
      assert k * b >= q * b by { Scale(q, k, b); }
    } else {
      assert (q - 1) * b >= k * b by { Scale(k, q - 1, b); }
      assert q * b == (q - 1) * b + b;
    }
  }

  lemma Scale(x: nat, y: nat, b: nat)
    requires x <= y
    ensures x * b <= y * b
  {
  }

  /** Dividing by the debt or by the target compares the same product. */
  lemma Exchange(a: nat, debt: nat, target: nat)
    requires debt > 0 && target > 0
    ensures a / debt >= target <==> debt <= a / target
  {
    QuotientAtLeast(a, debt, target);
    QuotientAtLeast(a, target, debt);
    assert debt * target == target * debt;
  }

  // ------------------------------------------------------------ the decision

  /** On a position read consistently the keeper stays idle exactly when the health factor has
      reached the lower of floor and target. */
  lemma IdleExactly(collateral: nat, debt: nat, floor: nat, target: nat)
    requires debt > 0 && target > 0
    ensures var hf := HealthFactor(collateral, debt);
      Decide(hf, debt, collateral, floor, target) == Noop <==> hf >= floor || hf >= target
  {
    Exchange(Backing(collateral), debt, target);
  }

  /** In particular, with a floor not above the target it acts exactly below the floor. */
  lemma ActsExactlyBelowFloor(collateral: nat, debt: nat, floor: nat, target: nat)
    requires debt > 0 && target > 0 && floor <= target
    ensures Decide(HealthFactor(collateral, debt), debt, collateral, floor, target) == Noop
       <==> HealthFactor(collateral, debt) >= floor
  {
    IdleExactly(collateral, debt, floor, target);
  }

  /** A repayment that clears the debt or leaves a health factor of at least the target. */
  ghost predicate Restores(collateral: nat, debt: nat, repay: nat, target: nat) {
    repay <= debt && (repay < debt ==> HealthFactor(collateral, debt - repay) >= target)
  }

  ghost predicate LeastRestoring(collateral: nat, debt: nat, repay: nat, target: nat) {
    && Restores(collateral, debt, repay, target)
    && forall less :: 0 <= less < repay ==> !Restores(collateral, debt, less, target)
  }

  /** The repayment is possible and sufficient, and one wei less is not. */
  lemma RepaySufficientAndMinimal(healthFactor: nat, collateral: nat, debt: nat, floor: nat, target: nat)
    requires Decide(healthFactor, debt, collateral, floor, target).Repay?
    ensures var repay := Decide(healthFactor, debt, collateral, floor, target).amount;
      0 < repay <= debt && LeastRestoring(collateral, debt, repay, target)
  {
    var a := Backing(collateral);
    var repay := Decide(healthFactor, debt, collateral, floor, target).amount;
    assert debt - repay == a / target;
    if repay < debt { Exchange(a, debt - repay, target); }
    forall less | 0 <= less < repay ensures !Restores(collateral, debt, less, target) {
      Exchange(a, debt - less, target);
    }
  }

  /** After the repayment the next tick does nothing, whatever health factor the pool reports for
      the new position. */
  lemma NextTickIdle(healthFactor: nat, collateral: nat, debt: nat, floor: nat, target: nat, reported: nat)
    requires Decide(healthFactor, debt, collateral, floor, target).Repay?
    ensures var repay := Decide(healthFactor, debt, collateral, floor, target).amount;
      repay <= debt && Decide(reported, debt - repay, collateral, floor, target) == Noop
  {
  }

  /** The guard re-checks the floor after the repayment. If debt is left, the check passes exactly
      when the backing that is left covers the floor on the debt at the target. */
  lemma GuardPassesExactly(healthFactor: nat, collateral: nat, debt: nat, floor: nat, target: nat)
    requires Decide(healthFactor, debt, collateral, floor, target).Repay?
    ensures var repay := Decide(healthFactor, debt, collateral, floor, target).amount;
      repay < debt ==>
        (HealthFactor(collateral, debt - repay) >= floor
         <==> floor * (Backing(collateral) / target) <= Backing(collateral))
  {
    var left := Backing(collateral) / target;
    if left > 0 { QuotientAtLeast(Backing(collateral), left, floor); }
  }

  /** A floor not above the target is enough for that. */
  lemma GuardAccepts(healthFactor: nat, collateral: nat, debt: nat, floor: nat, target: nat)
    requires Decide(healthFactor, debt, collateral, floor, target).Repay? && floor <= target
    ensures var repay := Decide(healthFactor, debt, collateral, floor, target).amount;
      repay <= debt && (repay < debt ==> HealthFactor(collateral, debt - repay) >= floor)
  {
    var left := Backing(collateral) / target;
    QuotientAtLeast(Backing(collateral), target, left);
    Scale(floor, target, left);
    assert left * target == target * left;
    GuardPassesExactly(healthFactor, collateral, debt, floor, target);
  }

  /** The keeper leaves a position below its floor alone exactly when the target is met already. */
  lemma StallsExactly(collateral: nat, debt: nat, floor: nat, target: nat)
    requires debt > 0 && target > 0
    ensures var hf := HealthFactor(collateral, debt);
      hf < floor && Decide(hf, debt, collateral, floor, target) == Noop <==> target <= hf < floor
  {
    IdleExactly(collateral, debt, floor, target);
  }

  /** With a floor above the target both do fail: backed by 150, a debt of 75 is left alone below the
      floor, and a debt of 100 is repaid to that level, which the guard refuses. Yet a floor above
      the target is not what decides: backed by 3, a debt of 2 is repaid to 1, which meets it. */
  lemma FloorAboveTarget()
    ensures var floor, target := 3 * WAD, 2 * WAD;
      && HealthFactor(200, 75) < floor && Decide(HealthFactor(200, 75), 75, 200, floor, target) == Noop
      && Decide(HealthFactor(200, 100), 100, 200, floor, target) == Repay(25)
      && Decide(HealthFactor(4, 2), 2, 4, floor, target) == Repay(1) && HealthFactor(4, 1) >= floor
  {
    assert Backing(200) == 150 * WAD && Backing(4) == 3 * WAD;
  }

  // -------------------------------------------------------------- the intent

  function RepayCalldata(amount: nat): Str { S("0x371fd8e6") + Pad64(HexText(amount)) }

  /** Any reader of the calldata finds the amount, and it is one 32-byte word exactly for amounts
      below 2^256. */
  lemma CalldataReads(amount: nat)
    ensures |RepayCalldata(amount)| >= 10 && RepayCalldata(amount)[..10] == S("0x371fd8e6")
    ensures HexNumber(RepayCalldata(amount)[10..], 0) == Some(amount)
    ensures |RepayCalldata(amount)| == 74 <==> amount < SixteenTo(64)
  {
    Parts(S("0x371fd8e6"), Pad64(HexText(amount)));
    PadReads(amount);
    HexTextLength(amount, 64);
  }

  /** guard.slice(2). */
  function Address(guard: Str): Str { if |guard| < 2 then [] else guard[2..] }

  /** The read of the position that the guard makes. */
  function ProbeCalldata(guard: Str): Str { S("0xbf92857c") + Pad64(Lower(Address(guard))) }

  datatype Config = Config(chainId: SafeInt, target: Str, guard: Str, floor: nat, goal: nat)

  function BuildIntent(c: Config, id: Str, submittedAt: Str, amount: nat, rationale: Str): Intent {
    Intent(id, c.chainId, [Call(c.target, S("0"), RepayCalldata(amount))],
           [Invariant(c.target, ProbeCalldata(c.guard), 5, GTE, Dec(c.floor))], Some(rationale), submittedAt)
  }

  /** The argument of the probe is the guard's address, in one word if it is no longer than that. */
  lemma ProbeReads(guard: Str)
    requires |guard| >= 2
    ensures ProbeCalldata(guard)[..10] == S("0xbf92857c")
    ensures HexNumber(ProbeCalldata(guard)[10..], 0) == HexNumber(guard[2..], 0)
    ensures |guard| <= 66 ==> |ProbeCalldata(guard)| == 74
  {
    var a := Lower(guard[2..]);
    Parts(S("0xbf92857c"), Pad64(a));
    LowerReadsSame(guard[2..], 0);
    if |a| < 64 { ZerosIgnored(64 - |a|, a); }
  }

  datatype Position = Position(healthFactor: nat, collateral: nat, debt: nat)

  datatype Status = Submitted | Held | Denied

  datatype Outcome = Idle | Failed | Sent(status: Status, intent: Intent)

  /** One tick. `submit` is the gateway's answer. */
  method RunOnce(c: Config, p: Position, id: Str, now: Str, rationale: Str, submit: Intent -> Status)
    returns (out: Outcome, submitted: seq<Intent>)
    ensures p.debt > 0 && c.goal > 0 && p.healthFactor == HealthFactor(p.collateral, p.debt) ==>
      (submitted != [] <==> p.healthFactor < c.floor && p.healthFactor < c.goal)
    ensures submitted == [] ==> out == Idle || (out == Failed && c.goal == 0)
    ensures submitted != [] ==>
      && |submitted| == 1 && out == Sent(submit(submitted[0]), submitted[0])
      && exists amount :: 0 < amount <= p.debt && submitted[0] == BuildIntent(c, id, now, amount, rationale)
           && LeastRestoring(p.collateral, p.debt, amount, c.goal)
  {
    if p.debt > 0 && c.goal > 0 { IdleExactly(p.collateral, p.debt, c.floor, c.goal); }
    match Decide(p.healthFactor, p.debt, p.collateral, c.floor, c.goal)
    case Throws => return Failed, [];
    case Noop => return Idle, [];
    case Repay(amount) =>
      RepaySufficientAndMinimal(p.healthFactor, p.collateral, p.debt, c.floor, c.goal);
      var intent := BuildIntent(c, id, now, amount, rationale);
      return Sent(submit(intent), intent), [intent];
  }

  /** The intent calls the position's repay with what was decided, moves no native value, and asks the
      guard that the sixth word of its own account data there is at least the floor. */
  lemma IntentMeans(c: Config, id: Str, now: Str, amount: nat, rationale: Str)
    ensures var i := BuildIntent(c, id, now, amount, rationale);
      && i.id == id && i.chainId == c.chainId && i.submittedAt == now && SumValues(i.calls) == 0
      && |i.calls| == 1 && i.calls[0].target == c.target && |i.calls[0].data| >= 10
      && i.calls[0].data[..10] == S("0x371fd8e6") && HexNumber(i.calls[0].data[10..], 0) == Some(amount)
      && |i.invariants| == 1
      && var v := i.invariants[0];
      && v.target == c.target && v.op == GTE && v.word == 5 && Big(v.threshold) == c.floor
      && (|c.guard| >= 2 ==>
            |v.probe| >= 10 && v.probe[..10] == S("0xbf92857c")
            && HexNumber(v.probe[10..], 0) == HexNumber(c.guard[2..], 0))
  {
    var i := BuildIntent(c, id, now, amount, rationale);
    CalldataReads(amount);
    assert S("0") == Dec(0);
    BigDec(0);
    BigDec(c.floor);
    assert i.calls[1..] == [];
    if |c.guard| >= 2 { ProbeReads(c.guard); }
  }
}
