# Zeus payment settlement, modelled and verified in Dafny

This project models the parts of Zeus that decide whether money moves, who may
move it, and what an agent is charged. It proves what those parts promise, over
all inputs and all runs. Run `dafny verify dfyconfig.toml` to check everything.

## What is modelled

**Settlement.** `Settlement` is a step system. It has any number of facilitator
processes, any number of concurrent `/settle` calls, and an EIP-3009 token
(`Token`, after the "Specification" section of EIP-3009). Every `await` of the
source is a point where other steps may run. Processes crash and lose their
nonce guard. A send may throw although its request has left, and a node may take the
transaction then or at any time later. Strangers may execute authorizations and move balances. `SettlementSafety`
holds the invariants of every run and `SettlementTheorems` the promises;
`Retries` says when a later request makes a process send once more.
`Settle` holds the nonce guard and the executor in the source's own form
(classes whose fields are updated), `Server` the answers given before the
executor is reached, `Wire` the HTTP bodies.

**Submission.** `FacilitatorClient` classifies the facilitator's answers.
`IntentStore` has the durable store, the sequential `submit`, and the live rig's
store. `DurableSubmission` lets any number of submitters, a reconciler and
unguarded writers interleave on durable intents.

**Verification.** `Verify` is the facilitator's gate with its v1 normalisation,
`PaymentVerifier` the Secretariat's gate, `Gates` how the two relate.
`Respelling` covers one nonce under two spellings. `EndToEnd` joins the gates,
the settlement system, the token and the client for one call. `PaymentSystem`
runs durable submission and settlement together, and `GatedPayments` follows an
order from its payload through both gates into that system.
Signature recovery is an uninterpreted function of domain, message and signature.

**Egress.** `EgressV4`, `EgressV6`, `EgressPrefix`, `EgressForms` and
`EgressGuard` cover the private-address test: mask arithmetic over 32 and 128
bits (`Bits`), and text expansion as the inverse of printing (`AddressText`).

**API server.** `ChainScan` and `Poller` cover log paging and polling,
`AgentErrors`, `AgentBlock` and `AgentLapse` the rolling error window and the
block it leads to, `EventFilter` the bounded duplicate filter, `StakingPricing` the staking
quote. `OperationFsm` covers operation runs and their public status.

## What was found

Where a promise of the source does not hold as stated, the code is modelled as
it is. There is then a lemma with an input or run that breaks the promise, and
one that says exactly when it holds.

- The settle executor releases a nonce on any throw before `markDone`, assuming
  nothing was broadcast (zeus-facilitator/src/settle.ts:159-160). A send that
  throws after its request has left breaks this, whether a node took the
  transaction before the throw or takes it after the answer:
  `RejectedCanStillPay` has both runs, `RejectedMovesNothing` the exact
  condition over all continuations. Once the authorization's window has closed
  every such answer is final (`ExpiredRejectionIsFinal`). At-most-one transfer needs no such
  assumption.
- The nonce guard compares nonces as spelled, not as bytes. One accepted request
  whose nonce has a letter in it is accepted again with that letter's case
  swapped, and one process broadcasts both (`OneAuthorizationTwoBroadcasts`).
  Under one spelling a process sends twice only when a send threw after its
  request had left (`SecondSendNeedsAThrow`). Whether a later request then makes
  it send again is decided exactly by `ThrownSendIsRepeatedIff`, and
  `OneSpellingBroadcastsTwice` is one such run. The chain still moves the money once.
- `submit` promises that a network error becomes UNKNOWN and never throws, and
  that holds (`RejectedIsDefinitive`). Other answers do make it throw: a null
  body, or a refusal whose reason is an object with a field named toString, also
  inside nested arrays. `AnswersThatThrow` has the exact condition and
  `ReasonWithoutText` an input. The intent then stays SUBMITTING until the
  reconciler or an unguarded writer moves it (`ThrowingAnswerStrandsTheIntent`,
  `StrandedStays`). It still blocks further payment. The facilitator's own
  replies never do this (`ClassifiesReply`).
- The Secretariat's comparisons ignore letter case and the facilitator's mostly
  do not. A wallet that writes the token's name in small letters is VALID and
  refused (`SmallLettersPassOneGate`, `WalletInSmallLetters`); `OnlySpellingSeparatesTheGates` gives the
  exact condition.
- A rehabilitation decided before a block is written can delete that block.
  `RehabilitationLiftsAFreshBlock` has a run in which one recorder writes between
  the decision and the clearing, so that a sixth error and a quote at the base
  rate share one instant. `BlockStandsIffNoneStale` says when a written block
  cannot be lifted, and `SixthErrorProtectsIff` when the promise holds from the
  push of the error on.
- A negative stake or term is not refused. The quote is then the mirrored one,
  rounded the other way (`QuoteIsOdd`).
- The rig's `recordSubmissionResult` overwrites any state, where the durable
  store's is guarded on SUBMITTING (`RigStepsLikeTheStore`).

## Model

| member | source | states |
|---|---|---|
| SettlementTheorems.AtMostOneTransfer | zeus-facilitator/src/settle.ts:120-201 | over every interleaving, crash, retry and leaked send, each (authorizer, nonce) moves funds at most once and not if used before; what moved is the calldata of a call; the used set is exactly what landed; total balance is conserved |
| SettlementTheorems.MiningMovesExactly | zeus-facilitator/src/settle.ts:136-157 | a mined settlement changes every account by exactly what the authorization says, a transfer to oneself included |
| SettlementTheorems.BalancesAreTheLog | zeus-facilitator/src/settle.ts:120-201 | over every run each account holds what it began with, changed by exactly the landed authorizations and the strangers' transfers |
| SettlementTheorems.GuardHasOneOwner | zeus-facilitator/src/settle.ts:72-93 | in any reachable state a key is inflight exactly when one unique call owns it, and done with a hash exactly when one unique call's send returned that hash |
| SettlementTheorems.DoneIsPermanent | zeus-facilitator/src/settle.ts:83-92 | a done key keeps its hash for the rest of every run |
| SettlementTheorems.RepliesTellTheTruth | zeus-facilitator/src/settle.ts:126-200 | every reply is truthful: an owner names a transaction exactly when its send returned a hash, and names that hash; success only after a success receipt; a reverted answer only after a revert; a 409 never comes from an owner |
| SettlementTheorems.DuplicateNamesTheBroadcast | zeus-facilitator/src/settle.ts:125-134 | a duplicate is answered 409 and carries a hash exactly when the key is done, which is the hash of another call's broadcast; otherwise another call owns the key |
| SettlementTheorems.SubmittedMeansLanded | zeus-secretariat/src/adapters/x402-facilitator-client.ts:298-346 | SUBMITTED means the call's own calldata landed under the returned hash |
| SettlementTheorems.RejectedMovesNothing | zeus-secretariat/src/adapters/x402-facilitator-client.ts:305-316 | after REJECTED the call's transaction moves no funds in any continuation, exactly unless its send threw after the request had left and the transaction has moved funds, or is unmined, unused, funded and its window not yet closed |
| SettlementTheorems.ExpiredRejectionIsFinal | zeus-secretariat/src/adapters/x402-facilitator-client.ts:305-316 | once the latest block is at or past `validBefore`, a REJECTED call's transaction never pays unless it already has |
| SettlementTheorems.LeaksComeFromThrows | zeus-facilitator/src/settle.ts:158-178 | a finished call left an unacknowledged transaction on the wire exactly when its send threw after departing |
| SettlementTheorems.LiveTransactionsAreNeverRejected | zeus-secretariat/src/adapters/x402-facilitator-client.ts:348-377 | while its returned transaction may move, and on every 409, a call is answered SUBMITTED or UNKNOWN; a receipt timeout is UNKNOWN |
| SettlementTheorems.RejectedCanStillPay | zeus-facilitator/src/settle.ts:158-177 | for every fundable authorization there are runs answered REJECTED whose money moves, with the transaction taken before the throw or only after the answer |
| SettlementTheorems.SecondBroadcastNeedsAnotherSpelling | zeus-facilitator/src/settle.ts:71-81 | two returned broadcasts of one process have differently spelled nonces |
| SettlementTheorems.SecondSendNeedsAThrow | zeus-facilitator/src/settle.ts:155-161 | of two calls of one process that sent for one nonce text, one had its send throw after departing |
| SettlementTheorems.OneSpellingBroadcastsTwice | zeus-facilitator/src/settle.ts:158-161 | a run in which one process broadcasts one authorization twice under one nonce text, after such a throw |
| Retries.RetrySendsIff | zeus-facilitator/src/settle.ts:71-161 | in every reachable state a request that arrives later can make a process send an authorization under a nonce text if and only if the process has not crashed, no broadcast is recorded under that text and the chain has not seen the nonce |
| Retries.ThrownSendIsRepeatedIff | zeus-facilitator/src/settle.ts:158-161 | after a send that threw once departed, the same process can be made to send the same authorization under the same text again, exactly while it lives, no broadcast is recorded under the text and the chain has not seen the nonce |
| EndToEnd.OneAuthorizationTwoBroadcasts | zeus-facilitator/src/settle.ts:71-81 | any accepted request whose nonce has a letter has a respelled twin that is accepted for the same calldata, and a run of one process returns a broadcast for each |
| Respelling.RespelledIsAccepted | zeus-facilitator/src/verify.ts:262-327 | a version-2 request stays accepted, with payer and authorization unchanged, under any spelling of its nonce with the same bytes |
| Respelling.AnotherSpelling | zeus-facilitator/src/verify.ts:80-82 | swapping the case of a letter in a nonce gives another accepted text for the same bytes |
| SettlementSafety.EveryRunKeepsInv | zeus-facilitator/src/settle.ts:120-201 | calls, guards, pool, ledger, receipts and replies keep their joint invariant over every run |
| SettlementSafety.GuardKept | zeus-facilitator/src/settle.ts:76-92 | each step keeps the ownership invariant of the guard |
| SettlementSafety.AnswersTruthfully | zeus-facilitator/src/settle.ts:126-200 | the step that answers a call answers it truthfully |
| Token.MoveConserves | zeus-facilitator/src/settle.ts:51-67 | a transfer conserves the total and moves exactly the amount, also to oneself |
| Settle.NonceGuard.Claim | zeus-facilitator/src/settle.ts:76-81 | returns the existing entry and changes nothing, or registers the nonce as inflight |
| Settle.NonceGuard.MarkDone | zeus-facilitator/src/settle.ts:83-85 | the nonce is done with the hash, all other entries stay |
| Settle.NonceGuard.Release | zeus-facilitator/src/settle.ts:87-92 | an inflight entry goes, anything else stays |
| Settle.SettleExecutor.Settle | zeus-facilitator/src/settle.ts:120-201 | an undisturbed call answers for its claim, broadcast and receipt and leaves the guard done exactly when its send returned a hash |
| Settle.SettleExecutor.SettleTwice | zeus-facilitator/src/settle.ts:125-134 | a second settle of the same nonce is a 409 with the first broadcast's hash and changes nothing |
| IntentStore.PostgresEvidenceStore.CompareAndSetState | lib/db/src/secretariat/postgres-store.ts:285-312 | moves the row and reports so exactly when it exists, is in the expected state and that state is not terminal |
| IntentStore.PostgresEvidenceStore.TransitionToSubmitting | lib/db/src/secretariat/postgres-store.ts:272-274 | moves AUTHORIZED to SUBMITTING, or nothing |
| IntentStore.PostgresEvidenceStore.RecordSubmissionResult | lib/db/src/secretariat/postgres-store.ts:277-282 | moves SUBMITTING to the new state, or nothing |
| IntentStore.X402FacilitatorClient.Submit | zeus-secretariat/src/adapters/x402-facilitator-client.ts:217-378 | alone, a request leaves exactly for an AUTHORIZED intent; then the result is the answer's classification, the durable state its target and no state that lets another request leave; otherwise nothing changes |
| IntentStore.RigStore.TransitionToSubmitting | testnet/live-rig/rig.ts:237-243 | moves a fresh or PENDING entry to SUBMITTING, or nothing |
| IntentStore.RigStore.CompareAndSetState | testnet/live-rig/rig.ts:244-251 | moves an entry in the expected state, keeping its hash unless a new one comes |
| IntentStore.RigStore.RecordSubmissionResult | testnet/live-rig/rig.ts:252-258 | sets the state of any entry and its hash when there is one |
| IntentStore.RigStepsLikeTheStore | testnet/live-rig/rig.ts:236-259 | the exact rows and arguments on which each of the rig's operations does what the durable store does |
| IntentStore.RigServesSubmit | testnet/live-rig/rig.ts:236-259 | for every answer, the operations of one `submit` take a fresh intent to the same state and hash in the rig and in the durable store |
| FacilitatorClient.AnswersThatThrow | zeus-secretariat/src/adapters/x402-facilitator-client.ts:280-377 | an answer makes `submit` throw exactly when its body is null, or its reason is used and is or holds an object with a field named toString |
| FacilitatorClient.ReasonWithoutText | zeus-secretariat/src/adapters/x402-facilitator-client.ts:305-313 | such a body throws at every status, 200 included |
| FacilitatorClient.RejectedIsDefinitive | zeus-secretariat/src/adapters/x402-facilitator-client.ts:298-377 | REJECTED comes only from a 2xx that says false or a 4xx, never from 408, 409 or 429; a network error is UNKNOWN |
| FacilitatorClient.ClassifiesReply | zeus-secretariat/src/adapters/x402-facilitator-client.ts:280-377 | a facilitator's reply, sent as JSON and parsed again, is classified by its typed fields and never throws |
| Json.TextlessHasNoText | zeus-secretariat/src/adapters/x402-facilitator-client.ts:306-313 | converting a parsed value to text throws exactly when it is, or holds in nested arrays, an object with a field named toString |
| DurableSubmission.OneRequestPerIntent | zeus-secretariat/src/adapters/x402-facilitator-client.ts:217-265 | at most one `/settle` request per intent over all runs, plus one per unguarded write that reopened it; a NOT_SETTLED verdict buys none |
| DurableSubmission.RequestClosesIntent | zeus-secretariat/src/adapters/x402-facilitator-client.ts:188-199 | after a request left, the intent is past AUTHORIZED, and no state lets a submission start unless the reconciler or an unguarded writer put it there |
| DurableSubmission.SubmitOverwritesNobody | zeus-secretariat/src/adapters/x402-facilitator-client.ts:241-346 | submit changes only its own intent, only from AUTHORIZED to SUBMITTING or from its own SUBMITTING to RECONCILING or SETTLEMENT_PENDING |
| DurableSubmission.ThrowingAnswerStrandsTheIntent | zeus-secretariat/src/adapters/x402-facilitator-client.ts:280-313 | over every run, the recording step finishes its submitter by throwing exactly on such an answer, and then writes nothing |
| DurableSubmission.StrandedStays | zeus-secretariat/src/adapters/x402-facilitator-client.ts:241-265 | an intent left SUBMITTING by a finished submitter is moved by no other submitter |
| DurableSubmission.TerminalStays | lib/db/src/secretariat/postgres-store.ts:286-292 | no compare-and-set leaves a terminal state |
| DurableSubmission.UnguardedWriteBuysARequest | zeus-secretariat/src/adapters/x402-facilitator-client.ts:229-249 | the request bound is met: one unguarded write back to AUTHORIZED leads to a second request |
| DurableSubmission.EveryRunKeepsInv | zeus-secretariat/src/adapters/x402-facilitator-client.ts:217-378 | requests, marks and the one ticket per intent stay balanced over every run |
| DurableSubmission.MarkSpendsTheTicket | zeus-secretariat/src/adapters/x402-facilitator-client.ts:241-249 | the SUBMITTING compare-and-set trades the intent's one ticket for one mark |
| Verify.NormalizationPreservesVerdict | zeus-facilitator/src/verify.ts:119-170 | a normalised v1 request gets the verdict of its version-2 relabelling and of its requirements alone, so no cross-check decides it |
| Verify.NormalizationReadsV1 | zeus-facilitator/src/verify.ts:119-170 | normalising what a v1 client writes for a payment gives that payment's canonical terms, field for field |
| Verify.VersionsAgree | zeus-facilitator/src/verify.ts:177-327 | one payment written in v1 and in v2 gets the same verdict |
| Verify.EqualTermsNeedNoCrossCheck | zeus-facilitator/src/verify.ts:212-260 | with equal terms on both sides the verdict is that of the requirements alone |
| Verify.AcceptedIsWellFormed | zeus-facilitator/src/verify.ts:262-327 | an accepted authorization has proper addresses and nonce, a positive value, an open window, and a signature over these very fields under the pinned domain that recovers to its payer |
| Gates.GatesAgree | zeus-facilitator/src/verify.ts:177-327 | for a VALID payload the facilitator's verdict is one residual refusal, or acceptance of exactly the intent's fields |
| Gates.OnlySpellingSeparatesTheGates | zeus-secretariat/src/core/eip3009-verifier.ts:149-220 | a VALID payload is refused for more than scheme, exact network id, window or signature exactly when a field is spelled unlike the persisted one; the facilitator never throws on it |
| Gates.AcceptedPaysTheIntent | zeus-secretariat/src/core/eip3009-verifier.ts:149-189 | what the facilitator accepts of a VALID payload is, byte for byte, the intent's authorizer, payee, value and nonce |
| Gates.ValidIsBound | zeus-secretariat/src/core/eip3009-verifier.ts:119-189 | VALID implies the shape and the bindings the facilitator checks |
| Gates.BuiltRequestAgreesWithItself | zeus-secretariat/src/adapters/x402-facilitator-client.ts:135-150 | the two copies of the terms in the built request never disagree: the facilitator's verdict is that of one copy, and it never throws |
| Gates.SmallLettersPassOneGate | zeus-secretariat/src/core/eip3009-verifier.ts:100-117 | for every token name with a capital letter, an honestly signed payload that writes it in small letters is VALID and refused for the domain at any time |
| Gates.WalletInSmallLetters | zeus-secretariat/src/core/eip3009-verifier.ts:100-117 | the wallet's payload that fails, written out |
| Gates.HonestPayloadIsValid | zeus-secretariat/src/core/eip3009-verifier.ts:293-410 | a payload that states the intent's fields and is signed over them is VALID |
| Gates.HonestPayloadPassesBothGates | zeus-facilitator/src/verify.ts:285-327 | and the facilitator accepts it exactly while its time window is open |
| EndToEnd.SubmittedPaysTheIntent | zeus-secretariat/src/adapters/x402-facilitator-client.ts:298-346 | SUBMITTED for a VALID payload means one and only one landed transfer for the intent, under the returned hash, of its exact value between its parties |
| EndToEnd.RejectedLeavesTheIntentUnpaid | zeus-secretariat/src/adapters/x402-facilitator-client.ts:305-316 | after REJECTED without a send that threw after departing, no continuation lands a transfer for the intent under this call's transaction |
| PaymentSystem.PendingIntentsArePaid | zeus-secretariat/src/adapters/x402-facilitator-client.ts:322-346 | in every run of submitters, reconciler, facilitators and chain, a SETTLEMENT_PENDING intent no unguarded writer touched carries the hash under which its own authorization landed, also after the reconciler wrote a recovered hash |
| PaymentSystem.RecoveryFindsThePayment | zeus-secretariat/src/core/reconciliation-engine.ts:442-468 | for a payment that landed, the hash the reconciler recovers from the token's used-nonce report is the hash it landed under |
| PaymentSystem.SubmittersTellTheTruth | zeus-secretariat/src/adapters/x402-facilitator-client.ts:320-345 | whoever was told SUBMITTED with a hash, the intent's authorization landed under that hash |
| PaymentSystem.OneIntentOnePayment | zeus-secretariat/src/adapters/x402-facilitator-client.ts:201-215 | in every run at most one landed transfer spends an intent's authorization, and unless an unguarded writer touched it at most one submitter reached a facilitator |
| PaymentSystem.EveryRunKeepsInv | zeus-secretariat/src/adapters/x402-facilitator-client.ts:217-378 | answers in hand, rows and results stay tied to the calls and transfers behind them over every run |
| GatedPayments.PendingOrdersArePaidExactly | zeus-secretariat/src/adapters/x402-facilitator-client.ts:217-346 | over every run of the whole system, an order found VALID, passed by a facilitator and standing in SETTLEMENT_PENDING untouched by unguarded writers has one and only one landed transfer of exactly the intent's value between its parties, under the hash on record |
| GatedPayments.OrdersGetPaid | zeus-secretariat/src/adapters/x402-facilitator-client.ts:217-346 | every order whose terms the token admits has a run of the whole system that ends in SETTLEMENT_PENDING with its transfer landed |
| EgressV4.ToIntOfText | zeus-secretariat/src/core/egress-guard.ts:49-50 | reading a printed quad gives its 32-bit value |
| EgressV4.MaskComparesPrefixes | zeus-secretariat/src/core/egress-guard.ts:46-53 | the mask test is equality of the values divided by 2^(32-bits), for every prefix length |
| EgressV4.BlockedIsUnionOfIntervals | zeus-secretariat/src/core/egress-guard.ts:135-151 | a quad is blocked exactly when it lies in one of 14 intervals |
| EgressV6.V6InCidr | zeus-secretariat/src/core/egress-guard.ts:87-103 | the group loop decides the prefix test, and answers false when either text does not expand |
| EgressV6.CompareGroups | zeus-secretariat/src/core/egress-guard.ts:91-102 | the loop over whole groups and the masked rest decide agreement of the first bits |
| EgressPrefix.PrefixTestIsQuotientTest | zeus-secretariat/src/core/egress-guard.ts:87-103 | the test holds exactly when the 128-bit values agree after division by 2^(128-bits), for every bits from 0 to 128 |
| EgressForms.ExpandInvertsPrinting | zeus-secretariat/src/core/egress-guard.ts:60-85 | every text form of section 2.2 of RFC 4291, with brackets and zone id, expands to the groups it was printed from |
| EgressGuard.GuardDecidesV6 | zeus-secretariat/src/core/egress-guard.ts:110-134 | a printed IPv6 address is refused exactly when it lies in one of the eight blocks |
| EgressGuard.GuardDecidesV4 | zeus-secretariat/src/core/egress-guard.ts:135-152 | a printed IPv4 address is refused exactly when it lies in one of the 14 intervals |
| EgressGuard.MappedIsAlreadyBlocked | zeus-secretariat/src/core/egress-guard.ts:125-132 | every IPv4-mapped address (section 2.5.5.2 of RFC 4291) is blocked by the /96 entry |
| EgressGuard.GuardIsTheTwoLists | zeus-secretariat/src/core/egress-guard.ts:110-152 | on any text whatever the recursive branch decides nothing |
| ChainScan.FetchPolicyCreatedLogs | api-server/src/lib/chain-sync.ts:29-54 | the cursor loop returns what one unbounded query would and asks for exactly the chunks |
| ChainScan.FetchLogsInChunks | api-server/src/routes/escrow.ts:137-152 | the stepping loop returns the same and asks for the same ranges |
| ChainScan.ChunksPartition | api-server/src/lib/chain-sync.ts:34-51 | chunks are contiguous, at most 2000 blocks, all but the last full, from the deploy block to the latest |
| ChainScan.EveryBlockInOneChunk | api-server/src/lib/chain-sync.ts:34-51 | every block in range lies in exactly one chunk |
| ChainScan.ChunkedScanIsOneQuery | api-server/src/lib/chain-sync.ts:34-53 | concatenating the pages is the whole query |
| ChainScan.DedupeAgreements | api-server/src/routes/escrow.ts:159-169 | the loop keeps the first occurrence of each id |
| ChainScan.FirstOccurrencesKeepOrder | api-server/src/routes/escrow.ts:159-169 | kept ids stand in the order of their first appearance, none twice |
| ChainScan.PolicyIdsAreTheLogIds | api-server/src/lib/chain-sync.ts:63-67 | the id list is strictly descending and its members are exactly the defined ids of the logs |
| ChainScan.DescendingIsUnique | api-server/src/lib/chain-sync.ts:67 | any strictly descending list of the same ids is the same list |
| Poller.RunPoller | api-server/src/lib/event-listener.ts:75-123 | for any answers the blocks and logs handed over are exactly those from the first head up to the next block, and every pause is the interval or the back-off of the errors since the last clean poll |
| Poller.HighWaterNeverDecreases | api-server/src/lib/event-listener.ts:92-114 | the next block never moves back, even when the head does |
| Poller.BlocksHandedExactlyOnce | api-server/src/lib/event-listener.ts:92-114 | every block in that range is handed over once, no other ever |
| AgentErrors.AgentStore.RecordDailyError | api-server/src/lib/agent-store.ts:52-60 | the count is over all errors of the last day since the last clear, pruned or not |
| AgentErrors.AgentStore.GetDailyErrorCount | api-server/src/lib/agent-store.ts:71-75 | the same for reading |
| AgentErrors.AgentStore.ClearAgentErrors | api-server/src/lib/agent-store.ts:77-87 | status and errors of the agent go, nobody else's |
| AgentErrors.AgentErrorStore.RecordAgentError | api-server/src/services/pricing.ts:190-200 | records under the address as spelled, or refuses it and changes nothing |
| AgentErrors.AgentErrorStore.GetAgentErrorHistory | api-server/src/services/pricing.ts:202-216 | ten in total, and the recorded times within the last day |
| AgentErrors.PruningKeepsAgreement | api-server/src/lib/agent-store.ts:54-57 | pruning before a push never shows while the clock does not go back |
| AgentErrors.PenaltyIsMonotone | api-server/src/services/pricing.ts:138-154 | more errors never cost less, between 1.0 and 4.0 |
| AgentErrors.PenaltyAboveCooldown | api-server/src/services/pricing.ts:138-186 | the exact cases in which an agent outside cooldown pays more than the cooldown rate |
| AgentBlock.PruningIsInvisible | api-server/src/lib/agent-store.ts:36-75 | over every run of concurrent calls the pruned window counts what the full record since the last clear does |
| AgentBlock.SixthErrorTrips | api-server/src/routes/insurance.ts:89-104 | a recorded error trips the block exactly when five others lie in the day, and a quote is refused with 429 exactly when more than five do |
| AgentBlock.SixthErrorProtectsIff | api-server/src/routes/insurance.ts:89-204 | in every reachable state at a sixth error, no quote that begins after its push goes out within a day, nor below 2.0 within two, before the block is written or after, if and only if no quote is rehabilitating the agent |
| AgentBlock.BlockStandsIffNoneStale | api-server/src/routes/insurance.ts:197-200 | short of an administrator's reset a written block stands for 48 hours on every continuation if and only if no decided rehabilitation is pending |
| AgentBlock.LaterQuotesRespectBlock | api-server/src/routes/insurance.ts:166-204 | every later quote is refused for a day and refused or charged 2.0 for another |
| AgentBlock.WrittenBlockProtects | api-server/src/routes/insurance.ts:94-102 | the same from the step that writes the block |
| AgentBlock.StaleLiftsTheBlock | api-server/src/routes/insurance.ts:197-200 | a pending rehabilitation lifts any block by its next step, at once |
| AgentLapse.RehabilitationLiftsAFreshBlock | api-server/src/routes/insurance.ts:186-204 | a run from the start, without an administrator, in which one recorder's block falls between a decision to rehabilitate and its clearing, and a quote at the base rate goes out at that instant |
| EventFilter.Filter.Report | api-server/src/routes/insurance.ts:747-759 | duplicate exactly when the id is among the last 10,000 accepted; a duplicate is not counted and changes nothing |
| EventFilter.Feed | api-server/src/routes/insurance.ts:717-768 | the filter's answers over a whole run are those of the specification |
| EventFilter.RepeatIsCaughtUntilForgotten | api-server/src/routes/insurance.ts:748-756 | a repeat is caught exactly while fewer than 10,000 other ids were accepted since |
| EventFilter.EarlyRepeatIsCaught | api-server/src/routes/insurance.ts:748-756 | a repeat within the next 10,000 reports is always caught |
| StakingPricing.PremiumIsNearExact | api-server/src/services/staking-pricing.ts:152-162 | the premium is at most the exact rational price and less than 1 + termDays/365 below it |
| StakingPricing.SplittingSavesLittle | api-server/src/services/staking-pricing.ts:152-162 | splitting a stake never costs more and saves less than 2 + termDays/365 |
| StakingPricing.PremiumIsMonotone | api-server/src/services/staking-pricing.ts:144-162 | more stake, a longer term or a riskier validator never lowers the premium |
| StakingPricing.RiskIsMonotone | api-server/src/services/staking-pricing.ts:103-133 | the risk multiplier is monotone in each component and stays within 80 and 300 |
| StakingPricing.RiskIsRoundedProduct | api-server/src/services/staking-pricing.ts:103-133 | the integer multiplier is the decimal product of the six factors in hundredths, rounded half up and clamped |
| StakingPricing.RiskClampIsTight | api-server/src/services/staking-pricing.ts:130-132 | when the cap and the floor of the multiplier are reached |
| StakingPricing.QuoteIsOdd | api-server/src/services/staking-pricing.ts:144-170 | a negative stake or term mirrors the quote |
| StakingPricing.CollateralCoversFirstLoss | api-server/src/services/staking-pricing.ts:150-170 | the first loss covered and the collateral locked per network, unknown networks as X Layer |
| OperationFsm.RunsAreShort | zeus-secretariat/src/core/operation-fsm.ts:16-45 | a rank bounds every run by 12 transitions |
| OperationFsm.LongestRun | zeus-secretariat/src/core/operation-fsm.ts:16-45 | from every state some run meets its rank |
| OperationFsm.SubmittedIsNeverJustFailed | zeus-secretariat/src/core/operation-fsm.ts:22-32 | after a submitted payment without a settlement verdict a run is open or UNRESOLVABLE, never FAILED |
| OperationFsm.OutcomesNeedAPayment | zeus-secretariat/src/core/operation-fsm.ts:16-45 | without a submitted payment a run is before payment or ends as SUCCESS, FAILED or POLICY_REJECTED |
| OperationFsm.PublicVerdictsLast | api-server/src/routes/requests.ts:135-178 | public FAILED and UNRESOLVABLE are stable, COMPLETED only turns FAILED from EXECUTION_CONFIRMED |
| OperationFsm.PublicFailureIsDefinite | api-server/src/routes/requests.ts:151-158 | a public FAILED after a submitted payment rests on SETTLED or SETTLEMENT_FAILED |

## Left out

- Cryptography, ABI encoding and base64: signature recovery is a parameter, calldata is the record of its fields, and the token does not check signatures, so it admits more executions than the chain does.
- Respelling.RespelledIsAccepted: for version-2 requests, and assumes that recovery reads the nonce by its bytes, as EIP-712 encodes a bytes32.
- Host conversions in the Secretariat's gate: `Number`, `BigInt` and `String` are parameters pinned on digit strings only, and conversions that throw there are not modelled.
- FacilitatorClient.AnswersThatThrow: the text of a number is a placeholder, and a status is left out of the default reason; neither can decide a test.
- PaymentSystem.PendingIntentsArePaid: each intent has one signed authorization, what reaches a submitter other than its own call's reply is no success, and a recovered hash is one the token reported for the authorization's nonce (the providers' answers are truthful).
- Case folding is over ASCII letters.
- Reply details: the echoed `network` and `payer` fields and the free text behind a reason are not modelled.
- HTTP: body limits, authentication headers, timers and retries of the transport are not modelled; an aborted or lost request is a network error.
- The gas account's transaction nonce, gas and fees: the node's answer is an input and nothing is claimed about nonce reuse.
- Chain reorganisations and liveness: a mined receipt is final, and nothing promises that a step happens.
- SettlementTheorems.SubmittedMeansLanded: assumes, like every success answer here, that the receipt waited for is that of the call's own transaction; the chain client may answer with that of a replacement when the gas account's transaction nonce was used twice.
- SettlementTheorems.RejectedMovesNothing: speaks of this call only; an `authorization_already_used` refusal may follow an earlier call that did pay.
- IntentStore.PostgresEvidenceStore.CompareAndSetState: models the settlement state and the hash, not the version and audit columns.
- IntentStore.X402FacilitatorClient.Submit: one call without store failures; failures and concurrency are in `DurableSubmission`.
- DurableSubmission.OneRequestPerIntent: the reconciler is an environment that writes SETTLED, NOT_SETTLED, RECONCILING or, in the same state, a recovered hash by compare-and-set, and unconditional state updates appear as unguarded writes; state-machine.ts, the rest of reconciliation-engine.ts and post-settlement-engine.ts are not part of this model.
- EgressV4.ToIntOfText: octets that are digit strings; other spellings that `Number` accepts read as zero here.
- EgressV6.V6InCidr: groups are numbers, where the source compares their printed form; parsing is exact where the source rounds groups of more than 53 bits.
- Name resolution, allowed hosts and redirects around the egress guard.
- ChainScan.FetchPolicyCreatedLogs: requests that fail abandon the scan and return nothing; only the scan that completes is modelled.
- Policy caching, multicalls and formatting after the id lists.
- Poller.RunPoller: handlers do not throw; stopping the loop is the end of the script.
- AgentErrors.AgentStore.RecordDailyError: the in-memory branch; the Redis branch expires whole counters and is not modelled.
- AgentErrors.PenaltyIsMonotone: the error rate is compared as an exact rational, not a double.
- AgentBlock.WrittenBlockProtects: covers quotes that begin after the block is written, while no decided rehabilitation is pending; quotes between the push and the write are in `SixthErrorProtectsIff`. The bound `floor` is the earliest clock reading among the agent's recording calls still running.
- AgentBlock.SixthErrorProtectsIff: the in-memory branch, where no time passes between an error's push and its block's write; with Redis a round trip lies between.
- The HUMI score, seller risk score and their premium (floating point).
- StakingPricing.RiskIsMonotone: the product of the six factors is exact, where the source multiplies doubles before rounding.
- The marketing fields of the staking quote.
- OperationFsm.PublicVerdictsLast: state names outside the operation states, such as PENDING_SIGNATURE or INCIDENT, are not modelled.
- Frontend, SDK, contracts, the MCP server, deployment scripts and mock-ups.
