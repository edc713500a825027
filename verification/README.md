# noyeet: a verified model

noyeet decides whether an agent's intent may be broadcast, broadcasts it through a retrying
client, and leaves receipts that anyone can check. This project models the parts that carry the
promises and proves them, over all inputs and all runs.

- **Send protocol.** `Breaker` (three-state circuit breaker), `Client` (bounded retries under one
  idempotency key, a lossy network, an idempotent server), `WalletQueue` (one send in flight per
  wallet key). Each is a state machine; a class implements it, lemmas hold over every run.
- **Evidence chain.** `Json`, `Canonical`, `Verifier`, `Utf8`, `Hex`, `Merkle`, `Receipts`,
  `Anchoring`, `AnchorRun`, `Events`, `AnchorConsumer`: from a receipt to its canonical bytes, its
  digest, the log event, the batch and the proof against a root. `Evidence` goes the way back, from
  a verified proof to the receipt; `AnchorCoverage` says when a log run leaves no decision out,
  `AnchorRerun` what a second run over a half-stored batch sends.
- **Decisions.** `Policy` (rules, evaluator, sliding window), `Gateway` (routes and hold ledger as
  interleaved sections), `Keeper` (repay sizing), `Canvas` (document to blocks to document).
- **Metrics.** `Metrics`: label keys, counters, gauges, histograms.
- **Shared.** `Text` (UTF-16 strings, decimal texts), `Sorting` (stable sort by a comparator),
  `Intents`, `HexNumbers` (numbers as 32-byte words).

A method with a loop or with state is proved against a specification function; what the source
promises is then proved about that function. `dafny verify dfyconfig.toml` checks everything.

## Assumptions

- The hash is a parameter, any function from byte strings to 32 bytes. Results that need collision
  resistance assume it only of the byte strings hashed in the statement at hand. `Merkle.ProofSound`
  also assumes that the leaf is not the hash of an inner preimage of the tree or the proof;
  `Merkle.InnerNodeAlsoProves` shows why. For digests of receipts `Evidence` derives it, for proofs
  whose steps are 32 bytes each, which `verifyProof` itself does not check.
- Clock readings, random numbers, Date.parse, localeCompare, transport answers, emit and put results
  and drawn hold ids are parameters. Breaker waits assume a clock that does not run backwards between
  two readings; the sliding window needs no such assumption. Hold ids are assumed fresh.
- The KeeperHub server obeys the idempotency contract written at
  `packages/keeperhub/src/client.ts:208-215`; other clients and its own pending work may
  interleave in any way.
- `localeCompare` on lower-case digests is code-unit order; on label names it is any strict weak
  order that tells valid names apart.
- JSON numbers are integers of at most 53 bits. Amounts are unbounded non-negative integers given
  as decimal texts. Metric values are reals. Lower-casing is that of ASCII letters.

## Where code and documentation disagree

The model follows the code.

- `packages/receipts/src/merkle.ts:7-9` says that promoting odd nodes keeps an inner node's proof
  from being replayed as a leaf's. It does not by itself: every inner node verifies, with its own
  path and no other (`Merkle.InnerNodeAlsoProves`, `Merkle.NodesExactly`).
- `apps/dashboard/lib/canvas/policy-to-blocks.ts:5-8` says that nothing is silently dropped. A
  schedule and an empty selector list are (`Canvas.CompilesBack`, `Canvas.EmptyListWidens`).
- `apps/anchor/src/index.ts:19-21` says that no published decision is left out of a root. One can be,
  after a failed emit: a failed emit drops its whole batch, and only the record being handled is
  retried (`AnchorConsumer.FailedEmitLosesALeaf`). On a log that delivers each decision once, nothing
  is left out exactly if every failed emit held nothing but the record being handled and a retry of
  that record succeeds (`AnchorCoverage.NothingLeftOutExactly`,
  `AnchorCoverage.RetriedEmitLosesNothing`). That is while the process lives: the open batch is in
  memory only. The flush on shutdown at `apps/anchor/src/index.ts:166-174` is a last timer tick that
  finds the batch old. Also, events of intents with an empty id or a chain id that is not positive
  never reach the batch (`Events.PublishedDecodes`).
- `packages/resilience/src/breaker.ts:90` promises zero only when the circuit is not open. It is
  also zero if the cooldown runs out between the two clock readings (`Breaker.WaitIsExact`).
- `apps/keeper/src/core.ts:72-74` describes acting below the floor. The keeper stays idle there
  exactly if the target is already met (`Keeper.StallsExactly`), and the guard accepts the repaid
  position exactly under the condition of `Keeper.GuardPassesExactly`, for which a floor not above
  the target is enough.
- `apps/gateway/src/authorize.ts:140-144` says the intent hash covers the executable content. It
  leaves out the invariants (`Receipts.IntentHashCommits`), which the guard call does cover
  (`Gateway.GuardCallCommits`).
- `packages/policy/src/schema.ts:23-24` and `docs/threat-model.md:37` present the selector lists as
  limits per target. Their keys are looked up in lower case and then as the call spells its target
  (`packages/policy/src/rules.ts:48-49`), so a list under a mixed-case key does not bind a call that
  spells the address differently, and keys of any case are accepted. The limit holds exactly if the
  lists reach every spelling, as lower-case keys do (`Policy.SelectorLimitExactly`,
  `Policy.OtherSpellingNotDenied`, `Gateway.UnreachedListIsSent`); that of
  `apps/gateway/policy.example.json` does not (`Canvas.ExampleListUnreached`).
- `packages/keeperhub/src/client.ts:230` promises one send in flight per wallet. It is one per chain
  and contract, or per chain for transfers (`WalletQueue.TwoContractsOverlap`).
- `scripts/anchoring.ts:4-7` and `docs/runbook.md:30-31` say that anchoring can be run again after a
  failure. If the store failed in the middle of a batch, the next run sends another root under the
  same idempotency key (`AnchorRerun.RerunRepeatsExactly`).
- `packages/keeperhub/src/client.ts:331-334` treats a 400 with wouldRevert as a result. On a real send
  it is returned like an acceptance (`Client.RevertedSendReturnsWithoutEffect`).

## Model

| member | source | states |
|---|---|---|
| Canonical.CanonicalTextInjective | packages/receipts/src/canonical.ts:28-90 | Two well-formed JSON values (integer numbers, any nesting, any strings) have the same canonical text if and only if they are equal up to object member order (RFC 8785 sections 3.2.2 and 3.2.3) |
| Canonical.ParseUndoesSerialize | packages/receipts/src/canonical.ts:28-90 | A JSON parser of the canonical text returns the value with every object sorted by key, and nothing is left over |
| Canonical.CanonAscending | packages/receipts/src/canonical.ts:74-84 | Every object in the output, at any depth, lists its keys strictly ascending: where two keys first differ the earlier one has the smaller UTF-16 code unit, or ends |
| Canonical.CanonIdempotent | packages/receipts/src/canonical.ts:87-90 | Canonicalizing what was canonical changes nothing |
| Canonical.SerializeIsEmit | packages/receipts/src/canonical.ts:28-85 | The serializer fails exactly on values with a part JSON cannot hold; otherwise it emits JSON.stringify of the sorted value, although it looks children up by sorted key |
| Json.ParseEmit | packages/receipts/src/canonical.ts:41-46 | Parsing undoes JSON.stringify on every JSON value, in front of any text that cannot continue it |
| Json.UnquoteQuote | packages/receipts/src/canonical.ts:44-46 | Reading a quoted string gives the string back, through every escape and through paired and lone surrogates |
| Json.QuoteShortest | packages/receipts/src/canonical.ts:44-46 | Every character is written in the shortest way that reads back as it, and escapes with digits are in lower case (RFC 8785 section 3.2.2.2) |
| Json.EmitInjective | packages/receipts/src/canonical.ts:28-85 | Equal JSON.stringify texts come from equal values, member order included |
| Verifier.VerifiersAgree | apps/dashboard/components/verifier.tsx:16-49 | The dashboard's own canonicalize returns the same text as the package's for every JSON value, so both hash the same bytes |
| Verifier.VerifierStringIsQuote | apps/dashboard/components/verifier.tsx:21-28 | Its two extra replacements never change the text of a string |
| Utf8.EncodeInjective | packages/receipts/src/canonical.ts:92-95 | TextEncoder maps different well-formed texts to different bytes |
| Utf8.DecodeEncode | packages/receipts/src/canonical.ts:92-95 | The bytes of well-formed text are its UTF-8: a reader of lead and continuation bytes gets the text back |
| Utf8.EmitWellFormed | packages/receipts/src/canonical.ts:44-46 | Canonical texts are well-formed UTF-16 whatever the strings in them, since lone surrogates are escaped, so no two are merged by the encoder |
| Utf8.EncodeCollides | packages/receipts/src/canonical.ts:92-95 | The well-formedness matters: a raw lone surrogate and U+FFFD encode alike |
| Hex.ReadHex | packages/receipts/src/hash.ts:14-24 | The parsing loop fails on odd length or on a pair parseInt makes nothing of, and otherwise yields one byte a pair |
| Hex.FromHexMeans | packages/receipts/src/hash.ts:14-24 | A text reads as bytes exactly if, after its first two characters, each two characters read as one byte and none is over |
| Hex.PairIsParseInt | packages/receipts/src/hash.ts:18-21 | Two characters read as Number.parseInt reads any text: white space, sign, 0x, then as many digits as there are; the result is stored modulo 256 |
| Hex.HexRoundTrip | packages/receipts/src/hash.ts:8-24 | fromHex undoes toHex |
| Hex.DigestReads | packages/receipts/src/hash.ts:14-24 | 0x and 64 hexadecimal digits of any case always read as 32 bytes |
| Hex.DigestsAgree | packages/receipts/src/hash.ts:8-24 | Two digest texts stand for the same bytes if and only if they agree up to letter case |
| Hex.MalformedHexAccepted | packages/receipts/src/hash.ts:18-21 | fromHex also accepts pairs that are not hexadecimal, such as a digit followed by g, so only validated digests are safe |
| Hex.CompareBytes | packages/receipts/src/hash.ts:42-50 | The comparison loop is negative, zero or positive exactly as the lexicographic byte order says |
| Hex.BytesTotal | packages/receipts/src/hash.ts:42-50 | That order is total and antisymmetric |
| Merkle.BuildTree | packages/receipts/src/merkle.ts:23-40 | The nested loops build exactly the levels of the tree, pairing neighbours and promoting a last odd node, and fail exactly on no leaves or an unreadable one |
| Merkle.BuildLevel | packages/receipts/src/merkle.ts:30-36 | One pass of the inner loop yields the next level |
| Merkle.SmallerFirst | packages/receipts/src/merkle.ts:19-21 | Of a pair the node that is smaller at the first differing byte is hashed first, whichever way round they come; so is the root of two leaves |
| Merkle.RootSplits | packages/receipts/src/merkle.ts:23-40 | The tree from the top: the root of more than one leaf is the pair hash of the root of the largest power of two of leaves that leaves some over, and the root of the rest |
| Merkle.GetProof | packages/receipts/src/merkle.ts:42-62 | The proof loop returns the sibling path of the index, or fails exactly when the index is out of range |
| Merkle.ProcessProof | packages/receipts/src/merkle.ts:64-69 | The folding loop computes the root that leaf and steps determine |
| Merkle.PathProves | packages/receipts/src/merkle.ts:19-69 | Completeness: for every tree size and every leaf the sibling path recomputes the root, through promoted odd nodes as well |
| Merkle.BuiltProofsVerify | packages/receipts/src/merkle.ts:43-73 | Every proof getProof returns verifies, and its length is at most the height of the tree |
| Merkle.HeightIsLog | packages/receipts/src/merkle.ts:28-37 | The height is the rounded-up binary logarithm of the number of leaves |
| Merkle.ProofSound | packages/receipts/src/merkle.ts:65-69 | Soundness: if the hash does not collide on the inputs of tree and proof and x is no inner preimage, then x with p computes the root if and only if x is a leaf and p is the sibling path of one of its positions |
| Merkle.VerifiedMeansLeaf | packages/receipts/src/merkle.ts:71-73 | The same of the hexadecimal texts that verifyProof compares, up to letter case |
| Merkle.NodesExactly | packages/receipts/src/merkle.ts:42-69 | Exactly what verifies: without collisions on the inputs at hand, a 32-byte value x with p computes the root if and only if x is a node at some level of the tree, leaf or inner node, and p is the path of that node |
| Merkle.InnerNodeAlsoProves | packages/receipts/src/merkle.ts:3-10 | The leaf-typed hypothesis of soundness is needed: an inner node with the rest of a proof verifies too, whatever the hash |
| Merkle.NextConservesLeaves | packages/receipts/src/merkle.ts:30-36 | Every level covers the same multiset of leaves |
| Merkle.RootsCommit | packages/receipts/src/merkle.ts:23-40 | Binding: without collisions on the inputs at hand, equal roots mean equal multisets of leaves |
| Receipts.HashJsonCommits | packages/receipts/src/hash.ts:30-33 | Equal digests mean equal JSON values up to member order, if the two byte strings do not collide |
| Receipts.PayloadInjective | packages/receipts/src/receipt.ts:54-86 | The hashed payload determines every field of a receipt |
| Receipts.PayloadCarries | packages/receipts/src/receipt.ts:54-86 | What the hashed payload carries under each of its ten keys |
| Receipts.ReasonCarries | packages/receipts/src/receipt.ts:54-86 | and in a reason, |
| Receipts.SimulationCarries | packages/receipts/src/receipt.ts:54-86 | in a simulation, null without one and without the index key if there is no index, |
| Receipts.ExecutionCarries | packages/receipts/src/receipt.ts:54-86 | and in an execution, null without one |
| Receipts.ReceiptDigestCommits | packages/receipts/src/receipt.ts:88-91 | Two receipts have the same digest if and only if they are equal, if their bytes do not collide |
| Receipts.ReceiptDigestIsDigest | packages/receipts/src/receipt.ts:88-91 | A receipt digest is 0x and 64 lower-case hexadecimal digits |
| Receipts.IntentHashCommits | apps/gateway/src/authorize.ts:140-162 | Without a collision two intents have the same hash if and only if id, chain, submission time and the exact call list agree: the rationale is excluded as documented, and so are the invariants |
| Receipts.IntentPayloadCarries | apps/gateway/src/authorize.ts:145-162 | What is hashed of an intent: id, chain, time, and of each call the target and its value and data joined by a colon; everything else is constant |
| Anchoring.BuildAnchorBatch | packages/receipts/src/anchor.ts:40-51 | Sorting a copy, building the tree and filling the map give the specified batch, or fail exactly on an empty batch or an unreadable digest |
| Anchoring.BatchIsHour | packages/receipts/src/anchor.ts:28-30 | A batch id is the UTC hour a time falls into, from its first millisecond to before the next; also before 1970 |
| Anchoring.EntriesVerify | packages/receipts/src/anchor.ts:40-51 | Every digest of a batch that was built has an entry, under its lower-case text, with its place among the sorted digests and a proof that verifies against the root |
| Anchoring.DigestsMakeBatch | packages/receipts/src/anchor.ts:40-51 | Any list of well-formed digests that is not empty makes a batch |
| Anchoring.BatchIgnoresOrder | packages/receipts/src/anchor.ts:40-51 | Root and entries, or the refusal, are the same for every permutation of any digests |
| AnchorRun.GroupByBatch | scripts/anchoring.ts:49-58 | Grouping keeps, for every hour, exactly its receipts in their order, and lists each hour once |
| AnchorRun.OnePolicy | scripts/anchoring.ts:65-73 | The policy hash of a batch exists if and only if all members carry the same one up to letter case |
| AnchorRun.AnchorAll | scripts/anchoring.ts:89-142 | Whatever calls and puts fail, the run sends a prefix of the planned calls in order, all of them exactly if it completes, each with its whole batch written back but possibly the last; it changes no receipt other than the saved ones, and those carry their proof |
| AnchorRun.CompletedRunProvesAll | scripts/anchoring.ts:97-131 | A completed run leaves every receipt it found unanchored with its own hour id and a proof that verifies against the root sent for it |
| AnchorRun.StoppedRunProvesEarlier | scripts/anchoring.ts:97-131 | A run that stops early leaves so every receipt of an hour before that of its last call |
| AnchorRerun.RestOfBatch | scripts/anchoring.ts:90-98 | After a stopped run the batch of the next one is exactly the receipts of that hour that were not written back |
| AnchorRerun.RerunRepeatsExactly | scripts/anchoring.ts:104-131 | After a run stopped at a failed call or a failed put, the next run makes a call with the same batch id, policy and idempotency key, and with the same root if and only if no receipt of the batch had been written back, unless the hash collides on the byte strings at hand |
| AnchorRun.CallsAscend | scripts/anchoring.ts:100-114 | One call per hour, ids strictly ascending, all idempotency keys different |
| AnchorRun.MixedPolicyStops | scripts/anchoring.ts:60-73 | A batch of two policies stops the run before that batch or any later one is sent |
| Evidence.PayloadLong | packages/receipts/src/receipt.ts:54-91 | The canonical bytes of a receipt are longer than the 64 bytes of an inner preimage |
| Evidence.VerifiedReceiptWasAnchored | packages/receipts/src/merkle.ts:64-73 | End to end: if the digest of a receipt verifies, with any proof of 32-byte steps, against the root sent for a batch, then the receipt equals one of the receipts of that batch, field for field, unless the hash collides on the byte strings at hand |
| Evidence.VerifiedAgainstARun | scripts/anchoring.ts:97-131 | The same of a run: a receipt that verifies against a root the run sent is one of those it found unanchored, decided in the hour that the root was sent for |
| Evidence.VerifiedAgainstTheLog | apps/anchor/src/index.ts:83-136 | The same of the log consumer: a receipt that verifies against a root it has sealed is one whose digest it accepted into that batch |
| Breaker.CircuitBreaker.TransitionTo | packages/resilience/src/breaker.ts:96-104 | The change of state and the resets that go with it |
| Breaker.CircuitBreaker.MaybeHalfOpen | packages/resilience/src/breaker.ts:106-109 | The cooldown check |
| Breaker.CircuitBreaker.Allows | packages/resilience/src/breaker.ts:112-114 | A read applies the cooldown and admits unless open |
| Breaker.CircuitBreaker.RetryAfterMs | packages/resilience/src/breaker.ts:90-94 | The reported wait, from two clock readings |
| Breaker.CircuitBreaker.AssertAllowed | packages/resilience/src/breaker.ts:117-119 | Refuses exactly while open, with the wait |
| Breaker.CircuitBreaker.RecordSuccess | packages/resilience/src/breaker.ts:121-129 | The state after a recorded success |
| Breaker.CircuitBreaker.RecordFailure | packages/resilience/src/breaker.ts:131-144 | The state after a recorded failure |
| Breaker.CircuitBreaker.ResetBreaker | packages/resilience/src/breaker.ts:168-172 | The state after an operator reset |
| Breaker.ClosedCountsTrailingFailures | packages/resilience/src/breaker.ts:121-144 | In every run, while closed the failure counter is the length of the trailing run of failures in the history |
| Breaker.OpensExactlyAtThreshold | packages/resilience/src/breaker.ts:131-144 | A closed breaker leaves closed exactly at the failure that brings that run to the threshold, and then it is open from that moment |
| Breaker.FailedProbeReopens | packages/resilience/src/breaker.ts:131-144 | In every run a failure recorded while half-open, or once the cooldown is over, leaves the circuit open from that moment |
| Breaker.StepExactly | packages/resilience/src/breaker.ts:96-144 | In every run state and opening time after one more call, from the history alone: which calls open, close, probe or change nothing |
| Breaker.ClosesExactlyAfterProbes | packages/resilience/src/breaker.ts:121-129 | Without a reset it closes exactly at the success that completes the required run of consecutive half-open successes |
| Breaker.HalfOpenCountsSuccesses | packages/resilience/src/breaker.ts:121-129 | The success counter is the number of consecutive half-open successes and zero outside half-open |
| Breaker.CallbacksChain | packages/resilience/src/breaker.ts:96-104 | The reported state changes of a run form one path from closed to the current state along legal edges; open to closed occurs only at a reset |
| Breaker.CallbacksExactly | packages/resilience/src/breaker.ts:96-109 | One more call reports exactly the changes it makes, the end of a cooldown first |
| Breaker.StaysOpenUntilCooldown | packages/resilience/src/breaker.ts:106-144 | Whatever is recorded before the cooldown ends, the breaker stays open, with the same opening time |
| Breaker.AdmittedExactlyAfterCooldown | packages/resilience/src/breaker.ts:106-119 | After any such calls admission resumes exactly at opening time plus cooldown |
| Breaker.WaitIsExact | packages/resilience/src/breaker.ts:90-94 | While open the wait is between 0 and the cooldown and is exactly the delay until admission; it is 0 only if the cooldown ran out between the two clock readings |
| Breaker.WaitPositive | packages/resilience/src/breaker.ts:90-94 | With one reading it is positive exactly while open |
| Breaker.OnlyFaultsOpen | packages/resilience/src/breaker.ts:121-129 | Successes and checks never take a closed breaker out of closed |
| Client.BackoffBounded | packages/keeperhub/src/http.ts:191-200 | A computed backoff lies between 0 and the maximum delay; a negative server delay is the one exception downwards |
| Client.SendWithRetries | packages/keeperhub/src/client.ts:277-344 | The loop carries the one request in every attempt; with attempts left one is followed by another exactly if it was lost or answered 409 idempotency_in_progress, 429 or at least 500; the pause is what the server asks for in a header or body of the last two, else random up to a ceiling that doubles, never more than the maximum; it ends with what the last answer means |
| Client.ReturnedMeans | packages/keeperhub/src/client.ts:320-336 | An answer is returned exactly if it is below 400 or a 400 with wouldRevert |
| Client.ThrownMeans | packages/keeperhub/src/http.ts:127-168 | Any other is thrown with its status and the kind of error it stands for, retryable exactly for losses, 429 and upstream failures |
| Client.FaultMeansUpstream | packages/keeperhub/src/client.ts:53-62 | The final error is a transport fault exactly when the last answer was none, a 429 or a 5xx |
| Client.GuardedRequest | packages/keeperhub/src/client.ts:258-275 | An open circuit makes no call, records nothing and reports the wait; otherwise every attempt carries the one request and exactly one outcome is recorded, a failure exactly for a transport fault |
| Client.AnswersNeverOpen | packages/keeperhub/src/client.ts:245-275 | Reverts, rejected requests, conflicts and successes in any number never open a closed breaker |
| Client.CallTakesEffectOnce | packages/keeperhub/src/client.ts:208-344 | Over a network that loses requests and responses and a server that keeps the documented idempotency contract, one call takes at most one effect under its key, and a returned response below 400 means exactly one, with its body |
| Client.RevertedSendReturnsWithoutEffect | packages/keeperhub/src/client.ts:331-334 | A real send answered with 400 and wouldRevert is returned like a success although nothing took effect |
| WalletQueue.WalletQueues.Push | packages/keeperhub/src/client.ts:352-367 | Chains a new task behind the last of its key |
| WalletQueue.WalletQueues.Begin | packages/keeperhub/src/client.ts:356-356 | Starts a task whose predecessor has settled |
| WalletQueue.WalletQueues.Finish | packages/keeperhub/src/client.ts:359-365 | Settles a task, fulfilled or rejected |
| WalletQueue.CallKeysAgree | packages/keeperhub/src/client.ts:392-399 | Two contract calls share a queue exactly if chain and address agree up to letter case |
| WalletQueue.TransfersApart | packages/keeperhub/src/client.ts:383-390 | Transfers of a chain never share a queue with a 0x address |
| WalletQueue.OneInFlight | packages/keeperhub/src/client.ts:351-367 | In every interleaving at most one task per key is in flight |
| WalletQueue.TwoContractsOverlap | packages/keeperhub/src/client.ts:392-399 | A key is not a wallet: of two calls of one wallet the second may start while the first is in flight exactly if they go to different contracts |
| WalletQueue.StartsExactlyInTurn | packages/keeperhub/src/client.ts:354-356 | A waiting task may start exactly when every earlier task of its own key is settled, fulfilled or rejected; other keys do not matter |
| WalletQueue.NeverStuck | packages/keeperhub/src/client.ts:354-365 | As long as a key has an unsettled task, one of its tasks is running or can start |
| WalletQueue.StartOrder | packages/keeperhub/src/client.ts:352-367 | Tasks of a key start in the order they were enqueued |
| WalletQueue.OwnResult | packages/keeperhub/src/client.ts:357-366 | A caller gets what its own task settled with, and it never changes |
| Policy.FindStrangers | packages/policy/src/rules.ts:177-192 | The loop over the set of seen targets reports each unknown target once, at its first call |
| Policy.Evaluate | packages/policy/src/evaluate.ts:12-31 | The collecting loop and the stable sort give the specified decision: denials first, then holds, each in rule order |
| Policy.SortPartitions | packages/policy/src/evaluate.ts:26-29 | The final sort is the partition by severity |
| Policy.VerdictMeans | packages/policy/src/rules.ts:22-207 | What the eleven rules add up to: DENY exactly when a hard limit as enforced is broken, ALLOW exactly when none is and nothing needs review, HOLD otherwise; a denial is never unfounded; a decision is missing exactly when an approval amount is unreadable. A list of selectors is enforced on the spellings of its address that lead to it, all other limits on every spelling |
| Policy.AmountReads | packages/policy/src/rules.ts:13-20 | What counts as an approval and its amount: calldata of the selector in any case with two full words approves n exactly if the second word writes n in hexadecimal |
| Policy.LargeApprovalDenied | packages/policy/src/rules.ts:123-136 | An intent with such a call is denied, with the reason, if n is above the maximum, whatever the spender and whatever follows |
| Policy.RecentMeans | packages/policy/src/rules.ts:75-78 | The recent decisions are exactly those that were no denial, have a readable time and are no older than the window, each as often as it was taken |
| Policy.SpentMeans | packages/policy/src/rules.ts:92-93 | Spending is the sum over them |
| Policy.HourMeans | packages/policy/src/rules.ts:107-113 | The hour compared with the schedule is the UTC hour of the day, before 1970 as well |
| Policy.InsideMeans | packages/policy/src/rules.ts:107-113 | A schedule holds the hours met going clockwise from its start before its end |
| Policy.ReasonsOrdered | packages/policy/src/evaluate.ts:18-30 | Denials come before holds, there is no reason exactly on ALLOW, and the verdict is the severity of the first reason |
| Policy.LimitsKept | packages/policy/src/rules.ts:46-60 | If every selector list reaches every spelling of its address, the limits as enforced are the limits by address up to letter case, so DENY then means exactly that a hard limit is broken |
| Policy.SelectorLimitExactly | packages/policy/src/rules.ts:46-60 | The selector rule keeps the limit by address on every call if and only if every list reaches every spelling: its key is lower-case, or a lower-case key of the same address carries a list that admits no more, or, without such a key, it has a star |
| Policy.SpellingDecides | packages/policy/src/rules.ts:48-50 | Of one call that the only list of its address forbids: the rule passes it if and only if the key is not lower-case and the call does not spell its target like the key |
| Policy.OtherSpellingNotDenied | packages/policy/src/rules.ts:48-50 | The input that breaks the limit: calls in lower case to an address listed in mixed case get the verdict of an intent without any list |
| Policy.TargetsNamed | packages/policy/src/rules.ts:32-44 | Reasons about targets carry the index of exactly the calls whose target is not allowlisted |
| Policy.SelectorsNamed | packages/policy/src/rules.ts:46-60 | Reasons about selectors carry the index of exactly the calls that a list binding their spelling forbids, which are all forbidden calls if the lists reach every spelling |
| Policy.ApprovalsNamed | packages/policy/src/rules.ts:123-136 | Reasons about approvals carry the index of exactly the calls that approve too much |
| Policy.StrangersNamed | packages/policy/src/rules.ts:177-192 | Reasons about unknown counterparties name exactly the first call to each |
| Policy.ReasonsComplete | packages/policy/src/evaluate.ts:18-30 | All reasons of all rules are returned, reordered only |
| Policy.FreshContextNeverAllows | apps/gateway/src/app.ts:361-368 | With no known counterparties, as deployed, an intent that makes a call is never ALLOW under a policy that holds on unknown ones |
| Policy.WindowSafe | packages/policy/src/rules.ts:75-105 | Over every run whose caller records its decisions, every closed window of the policy length holds at most the permitted number and total value of admitted intents, whatever the clock does |
| Gateway.GuardCallCommits | apps/gateway/src/authorize.ts:43-62 | What is simulated and broadcast determines chain, calls and invariants of the intent, and nothing else of it |
| Gateway.ArgsMean | apps/gateway/src/authorize.ts:40-62 | Its arguments read as the guard declares them: calls as target, value, data, and invariants as target, probe, word, number of the comparison, threshold |
| Gateway.HoldLedger.Create | apps/gateway/src/holds.ts:32-51 | Adds a held record |
| Gateway.HoldLedger.Resolve | apps/gateway/src/holds.ts:60-71 | Resolves an open hold once; otherwise nothing changes and nothing is returned |
| Gateway.App.Begin | apps/gateway/src/app.ts:113-125 | A post up to its first await: refused, judged, waiting for simulation or for the store |
| Gateway.App.SimulationReturned | apps/gateway/src/authorize.ts:82-107 | The verdict after simulation |
| Gateway.App.ReceiptStored | apps/gateway/src/app.ts:126-141 | After the store: an allowed execution is broadcast, a HOLD on the hold route becomes a record |
| Gateway.App.ReleaseHold | apps/gateway/src/app.ts:204-212 | Release resolves and broadcasts in one section |
| Gateway.App.CancelHold | apps/gateway/src/app.ts:236-238 | Cancel resolves and broadcasts nothing |
| Gateway.ArrivalExactly | apps/gateway/src/app.ts:113-125 | A post is taken up exactly if its intent parses, it has a key unless it only asks for a verdict, and no approval amount is unreadable; otherwise nothing changes |
| Gateway.SimulationDecides | apps/gateway/src/authorize.ts:76-107 | A predicted revert turns an ALLOW into DENY, a clean run keeps it, a throwing one answers the request; no other request changes |
| Gateway.BroadcastsExactly | apps/gateway/src/app.ts:126-212 | A step sends exactly on storing the receipt of an execution still allowed and on releasing a waiting hold, and nothing sent is taken back |
| Gateway.HoldsExactly | apps/gateway/src/app.ts:160-240 | Each hold after a step: created waiting when the receipt of a HOLD on the hold route is stored, resolved once by release or cancel, otherwise unchanged |
| Gateway.RunSound | apps/gateway/src/app.ts:113-252 | The invariant of every reachable state |
| Gateway.BroadcastsJustified | apps/gateway/src/app.ts:113-234 | In every interleaving a broadcast is the guard call of an allowed request whose own simulation came back clean, under its key, or the stored intent and key of a released hold made on a HOLD verdict; the key is never empty |
| Gateway.AtMostOnce | apps/gateway/src/app.ts:204-252 | At most one broadcast per request and per hold, none for a hold that is waiting or cancelled |
| Gateway.ResolvedHoldsStay | apps/gateway/src/holds.ts:60-71 | A resolved hold never changes again |
| Gateway.NothingForbiddenIsSent | apps/gateway/src/app.ts:113-234 | Every broadcast, released ones included, is of an intent that kept every hard limit as enforced when it was judged, and every hard limit by address if the selector lists reach every spelling |
| Gateway.UnreachedListIsSent | apps/gateway/src/app.ts:113-141 | Otherwise the selector limit can fail: a run that broadcasts calls to forbidden functions of an address listed in mixed case |
| Gateway.OnlyHumansRelease | apps/gateway/src/app.ts:361-368 | Under a policy that holds on unknown counterparties, whatever makes a call is broadcast only on release of a hold |
| Gateway.ReusedIdBroadcastsTwice | apps/gateway/src/holds.ts:74-76 | Fresh hold ids are needed: a repeated id lets one hold id be broadcast twice |
| Keeper.IdleExactly | apps/keeper/src/core.ts:84-96 | On a consistent read the keeper stays idle exactly when the health factor has reached the floor or the target |
| Keeper.ActsExactlyBelowFloor | apps/keeper/src/core.ts:68-96 | With a floor not above the target it acts exactly below the floor |
| Keeper.RepaySufficientAndMinimal | apps/keeper/src/core.ts:92-95 | The repayment is at least 1 and at most the debt, brings the health factor to the target or clears the debt, and is the least amount that does |
| Keeper.NextTickIdle | apps/keeper/src/core.ts:91-95 | After the repayment the next tick does nothing, whatever the pool reports |
| Keeper.GuardAccepts | apps/keeper/src/core.ts:12-14 | After the repayment the guard's check of the floor passes if debt is left and the floor is not above the target |
| Keeper.GuardPassesExactly | apps/keeper/src/core.ts:91-95 | If debt is left after the repayment, the guard accepts the position if and only if the floor on the whole units of debt that the backing covers at the target is within the backing |
| Keeper.StallsExactly | apps/keeper/src/core.ts:84-96 | A position below its floor is left alone if and only if its health factor has reached the target |
| Keeper.FloorAboveTarget | apps/keeper/src/core.ts:84-96 | A floor above the target does let both fail, but it is not the condition: on another position such a floor is met after the repayment |
| Keeper.CalldataReads | apps/keeper/src/core.ts:68-70 | The calldata is the repay selector and the amount, as one 32-byte word exactly below 2^256 |
| Keeper.ProbeReads | apps/keeper/src/core.ts:63-66 | The probe is the account data selector and the address of the guard in one word |
| Keeper.RunOnce | apps/keeper/src/core.ts:124-144 | One tick submits at most one intent, for the least sufficient repayment, exactly when below both floor and target |
| Keeper.IntentMeans | apps/keeper/src/core.ts:98-122 | The intent calls repay on the position with that amount, moves no native value, and asks the guard that the sixth word of its own account data there is at least the floor |
| HexNumbers.WordReads | packages/policy/src/rules.ts:13-20 | Reading 64 hexadecimal digits of any case yields n exactly if they write n |
| Events.DecodedDigestReads | packages/events/src/validate.ts:83-97 | A decoded decision carries the digest of its payload, and it always reads as 32 bytes |
| Events.DecodesExactly | packages/events/src/validate.ts:40-100 | A payload decodes to a decision exactly if version, type, id, verdict, digest, chain id, reasons and time are those of that decision and well formed |
| Events.OthersExactly | packages/events/src/validate.ts:57-75 | Of anchor and dead-letter events only version and type are looked at; everything else is rejected |
| Events.PublishedDecodes | apps/gateway/src/app.ts:316-352 | The event published for a receipt reads back as written and decodes to its digest exactly if the intent id is not empty, the chain id is positive and the time is readable; otherwise it is rejected |
| Events.EachMessage | packages/events/src/consumer.ts:108-143 | An undecodable record is dead-lettered at once; any other is handled at the first attempt that succeeds, or dead-lettered after all of them |
| Events.OneFate | packages/events/src/consumer.ts:108-143 | That leaves one possible fate, number of calls and final state |
| AnchorConsumer.ReceiptBatch.Add | apps/anchor/src/index.ts:83-86 | Appends a digest, opening the batch if it was empty |
| AnchorConsumer.ReceiptBatch.ShouldFlush | apps/anchor/src/index.ts:88-91 | Due exactly when non-empty and full or old |
| AnchorConsumer.ReceiptBatch.Seal | apps/anchor/src/index.ts:93-99 | Empties the batch and roots its leaves |
| AnchorConsumer.Service.Flush | apps/anchor/src/index.ts:119-136 | Seals and emits |
| AnchorConsumer.Service.OnTick | apps/anchor/src/index.ts:146-148 | The age timer |
| AnchorConsumer.Service.OnMessage | apps/anchor/src/index.ts:150-164 | The message handler |
| AnchorConsumer.FlushKeeps | apps/anchor/src/index.ts:93-136 | Sealing a batch of validated digests never throws and conserves what was accepted |
| AnchorConsumer.Consume | apps/anchor/src/index.ts:119-164 | Over a whole log with any failures: sealed batches then the open one are the accepted digests in order, the open batch stays below its size limit, every record ends once; if first emits succeed every decision is accepted exactly once, in order |
| AnchorConsumer.SealedLeavesVerify | apps/anchor/src/index.ts:93-99 | Any leaf of any sealed batch verifies against its root |
| AnchorConsumer.AgeFlushes | apps/anchor/src/index.ts:144-148 | A tick past the age limit leaves nothing open |
| AnchorConsumer.TickFlushesExactly | apps/anchor/src/index.ts:88-91 | The timer empties the batch exactly if it is full or as old as it may get, and otherwise leaves it |
| AnchorConsumer.DecisionFlushesExactly | apps/anchor/src/index.ts:150-164 | So does a decision, counting itself; otherwise it stays open behind the others |
| AnchorConsumer.AgeFromFirst | apps/anchor/src/index.ts:83-86 | The age of a batch counts from its first digest |
| AnchorConsumer.PublishedExactlyOnce | apps/anchor/src/index.ts:119-136 | Published batches and then the open one are the accepted digests in order, a retried one as often as it was accepted, exactly if every emit of a sealed batch succeeded |
| AnchorConsumer.FailedEmitLosesALeaf | apps/anchor/src/index.ts:119-164 | A failed emit loses an earlier leaf and doubles the retried one |
| AnchorCoverage.SparedLogLeavesNothingOut | apps/anchor/src/index.ts:14-27 | Over any log, with records delivered again and any failures, and the timer afterwards: if every emit by the timer of a due batch succeeded, every decision was tried, and each first attempt either returned or failed with nothing else open and a retry returned, then every decision on the log is under a published root or in the open batch |
| AnchorCoverage.NothingLeftOutExactly | apps/anchor/src/index.ts:14-27 | On logs that deliver each decision once that condition is exact |
| AnchorCoverage.RecordRecords | apps/anchor/src/index.ts:119-164 | The same of one record, from any state that conserves: what was on record and the digest of the record stay on record if the record does no harm, and for a fresh digest only then |
| AnchorCoverage.RetriedEmitLosesNothing | apps/anchor/src/index.ts:119-164 | A failed emit need not lose anything: with one leaf to a batch its retry publishes the digest, accepted twice and published once |
| Canvas.PolicyToBlocks | apps/dashboard/lib/canvas/policy-to-blocks.ts:30-140 | The pushing loops produce the specified blocks and carry-over |
| Canvas.BuildSelectorMap | apps/dashboard/lib/canvas/compile.ts:185-191 | The selector loop groups codes under their address in order |
| Canvas.CompilesBack | apps/dashboard/lib/canvas/compile.ts:115-223 | For every schema-valid document, in any member order and with defaults absent or present, compiling its blocks under its name with its carry-over gives the document of the policy without its schedule and its empty selector lists, and with a blank name replaced |
| Canvas.DocParses | apps/dashboard/lib/canvas/compile.ts:193-220 | The schema reads that document as the policy again |
| Canvas.RoundTripExactly | apps/dashboard/lib/canvas/policy-to-blocks.ts:30-140 | The round trip returns the document itself exactly if the policy has no schedule, no empty selector list and a name that is not blank |
| Canvas.ScheduleCompiles | apps/dashboard/lib/canvas/compile.ts:183-223 | A schedule block beside the blocks of any valid document compiles to that policy with those hours, start first |
| Canvas.InvariantsRequired | apps/dashboard/lib/canvas/compile.ts:193-212 | As many invariants are required as there are invariant blocks, and at least one |
| Canvas.EmptyCanvas | apps/dashboard/lib/canvas/compile.ts:181-223 | Without blocks the canvas compiles to a policy that allows no target, value or approval |
| Canvas.HoursFine | apps/dashboard/lib/canvas/compile.ts:100-107 | The hour fields accept each hour up to 24, the schema only a start before 24 |
| Canvas.HoursBind | apps/dashboard/lib/canvas/compile.ts:213-220 | And those hours bind decisions clockwise from the start to before the end |
| Canvas.SelectorsBack | apps/dashboard/lib/canvas/policy-to-blocks.ts:54-69 | Selector blocks compile back to the non-empty lists, addresses in order |
| Canvas.DecisionKept | apps/dashboard/lib/canvas/compile.ts:19-31 | Without a schedule or empty lists the whole decision on every intent in every context, reasons and their order included, survives the round trip, whatever becomes of the name |
| Canvas.EmptyListWidens | apps/dashboard/lib/canvas/policy-to-blocks.ts:54-69 | An empty selector list forbids every function of its address, however a call spells it; after the round trip such a call is permitted exactly if the other lists of that address, if any, admit it |
| Canvas.ExampleListUnreached | apps/gateway/policy.example.json:5-8 | The selector list of the example policy does not reach every spelling of its address |
| Canvas.OpenedFieldsValid | apps/dashboard/lib/canvas/compile.ts:71-113 | A policy opened on the canvas shows no field in error exactly if it nowhere permits any selector by a star |
| Metrics.EscapeIsOnePass | packages/observability/src/registry.ts:15-17 | The three successive replacements equal one escape per character |
| Metrics.ReadEscaped | packages/observability/src/registry.ts:15-17 | A reader gets the label value back |
| Metrics.SeriesKeysAgree | packages/observability/src/registry.ts:19-32 | Two label sets share a series exactly if they are the same map, for any comparator that orders valid names |
| Metrics.Counter.Inc | packages/observability/src/registry.ts:59-65 | Refuses a negative amount unchanged, otherwise records it |
| Metrics.Counter.Get | packages/observability/src/registry.ts:67-69 | The sum of all increments under the same label map |
| Metrics.Gauge.Set | packages/observability/src/registry.ts:86-88 | Records a value |
| Metrics.Gauge.Get | packages/observability/src/registry.ts:90-92 | The last value set under the same label map |
| Metrics.BoundsAccepted | packages/observability/src/registry.ts:112-119 | Bucket bounds are accepted exactly if they are distinct, and then strictly increase |
| Metrics.Bump | packages/observability/src/registry.ts:132-135 | The loop adds the observation to every bucket at or above it |
| Metrics.Histogram.Observe | packages/observability/src/registry.ts:125-138 | Every bucket count stays the number of observations of its label map at or below its bound; sum and count agree |
| Metrics.BucketsCumulative | packages/observability/src/registry.ts:131-138 | Bucket counts never decrease towards wider buckets and never exceed the count |

## Left out

- React pages and components other than `canonicalize` in verifier.tsx, styling and copy.
- fetch, kafkajs, Postgres, OpenTelemetry, Hono, notification and environment loading: their outcomes are parameters.
- The internals of keccak, JSON.parse, the zod runtime and Date parsing.
- Error messages, reason prose and structured details; rules report a code and a call index.
- The path in a CanonicalizationError, -0 and non-integer numbers.
- The identity check on the stack in the dashboard's canonicalize: it fires only on cyclic objects, which are not JSON values.
- The status polling loop of the client, `toAccepted`, `toStatus` and `toSimulation`: field extraction.
- Retry-After texts: the header is modelled as already split into seconds, a date or neither.
- Call values that are negative or not decimal, approval amounts with trailing white space, and targets named like built-in object properties.
- Released holds are broadcast without a new simulation, as in the source; the guard's own check on chain is not part of this model.
- The Solidity guard and pool: only the health-factor formula that the TypeScript contains is used.
- The dashboard's own hold ledger and release route: it broadcasts before marking the hold resolved, so the gateway's at-most-once result does not transfer.
- A second anchoring run over an hour that gained receipts in between, and what the service answers to another root under a used key.
- The death of the anchoring process, which takes the open batch with it.
- The structural findings and the invariant tuples of the canvas; a text that is not a digit string in range compiles to a value that is no number.
- `targets`, `limits` or another record of a policy document being null, on which the canvas throws.
- The contents of a dead-letter event, and the registry's check for a metric name used twice.
- The order in which metric lines are printed, the le label of bucket lines, and NaN observations.
- The age and size limits of the anchor consumer being NaN.
- Gateway.HoldLedger.Create: does not model the receipt and the digest in the record, because they are read only into response bodies and decide nothing.
- Gateway.App.SimulationReturned: does not model the reason that a predicted revert adds, because its code comes from the denial decoded by the simulation, which is not part of this model; the verdict is modelled.
- Canvas.PolicyToBlocks: does not model block ids, places and the list of unmapped paths, because the compiled document depends on none of them.
- AnchorCoverage.NothingLeftOutExactly: is exact for logs that deliver each decision once; of a digest delivered again one copy on record is enough, so there the condition is only sufficient (`AnchorCoverage.SparedLogLeavesNothingOut`).
- Merkle.GetProof: an index that is not an integer, which the source refuses like one out of range.
- AnchorConsumer.Consume: runs records one after another; handlers of several partitions at once are not modelled.
