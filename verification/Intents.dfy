/** What an agent submits, and the verdicts on it. */
module Intents {
  import opened Text
  import opened Json

  datatype Call = Call(target: Str, value: Decimal, data: Str)

  datatype Verdict = ALLOW | HOLD | DENY

  datatype Severity = Hold | Deny

  datatype Op = GTE | LTE | EQ | REL_DEC_MAX | REL_INC_MAX

  datatype Invariant = Invariant(target: Str, probe: Str, word: SafeInt, op: Op, threshold: Decimal)

  /** The rationale is carried for the audit trail and reaches no decision. */
  datatype Intent = Intent(
    id: Str, chainId: SafeInt, calls: seq<Call>, invariants: seq<Invariant>,
    rationale: Option<Str>, submittedAt: Str)

  function SumValues(calls: seq<Call>): nat {
    if calls == [] then 0 else Big(calls[0].value) + SumValues(calls[1..])
  }

  /** The value of an intent is that of its calls together. */
  lemma SumMeans(a: seq<Call>, b: seq<Call>, c: Call)
    ensures SumValues([]) == 0 && SumValues([c]) == Big(c.value) && SumValues(a + b) == SumValues(a) + SumValues(b)
  {
    assert [c][1..] == [];
    SumSplit(a, b);
  }

  lemma {:induction false} SumSplit(a: seq<Call>, b: seq<Call>)
    ensures SumValues(a + b) == SumValues(a) + SumValues(b)
  {
    Parts(a, b);
    if a != [] { SumSplit(a[1..], b); }
  }
}
