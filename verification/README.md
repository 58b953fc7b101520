# AFAL: proofs about the ledger, the approval protocol, the outbox, the MCP framing and the payment rail

This project models five components of the AFAL repository in Dafny and proves what they keep over
every run and every input. Each component has a module of specification functions (the next state
as a function of the old one and the inputs), a module of classes or methods that work as the
source does (fields and maps updated in place, the loops of the source) and are proved equal to
those functions, and a module of theorems about the functions.

| component | specification | imperative form | theorems |
|---|---|---|---|
| MCP stdio framing | `McpFraming` | `McpFraming` (the loop, `StdioServer`) | `McpFramingProofs`, `McpFramingRoundTrip` |
| treasury ledger (ATS) | `ResourceLedger`, `MonetaryLedger` | `Ats` | `ResourceLedgerProofs`, `MonetaryLedgerProofs` |
| approval protocol (AMN) | `Approvals` | `Amn` | `ApprovalsProofs`, `ApprovalRecords` |
| payment and resource flows | `Flows` | `Orchestrators` | `FlowProofs`, `StrandedProofs`, `PaymentFlowProofs`, `PaymentRunProofs` |
| notification outbox and worker | `Outbox`, `OutboxWorker` | `OutboxPort`, `OutboxWorker` | `OutboxProofs`, `OutboxPassProofs`, `OutboxWorker` |
| payment rail | `OnchainVerifier`, `PaymentRail` | `PaymentRail` | `OnchainVerifierProofs`, `PaymentRailProofs`, `PaymentAnswers`, `PaymentRaceProofs`, `SettlementProofs` |

`Prelude`, `Text`, `Sums` and `OrderedMap` hold optional values, the string operations of ECMAScript
that are used, sums over maps, and maps in insertion order. The methods of the services also state
what they keep: consistent records, agreeing tables, latched decisions, counted outboxes. What each
operation answers, and what it writes, is also proved from its inputs and the stored records alone:
which reservations are accepted, how every flow ends, what a pass takes, what every request gets.

## How the program is read

- A thrown error is an `Err`, or a reply that says so; a call that throws after it has written
  keeps what it wrote (creating an approval request without a context template leaves a challenge).
- A method of the ledger or of the approval service is one step, because the code holds no lock
  between its reads and writes. The worker is modelled at its awaits, and so is the payment rail:
  requests that wait for the agent wallet or for the verifier interleave with others in
  `PaymentRaceProofs`, while `PaymentRailProofs` is about one request after the other.
- Receivers, the clock, the adapters around a flow, the trusted surface, the agent wallet and the
  chain are arbitrary: every theorem is for all of their answers. The chain is a fixed function
  from a hash to a receipt. Time is in integer milliseconds in the outbox and opaque elsewhere.
- Numbers that are ECMAScript doubles in the ledger are exact reals, with `toFixed(2)` as rounding
  to the nearest cent, ties away from zero. Resource quantities are exact.
- A `char` is one UTF-16 unit. An empty reference counts as absent wherever the code tests
  truthiness (`approvalResultRef`, `finalDecisionRef`, callback URLs, the indexed action of a
  transaction, the settlement address).

## What the proofs found

Where a property holds only under a condition, the condition is exact: it is given in both
directions, for all inputs, or with the inputs that break it.

- **Framing.** The delivered messages are independent of how the stream is cut into chunks exactly
  when no header is malformed and nothing consumable follows a frame of length zero, or when nothing
  of the stream can be consumed at all. Extraction returns at a zero-length frame, and a malformed
  header loses the messages found before it and keeps the whole buffer. Streams whose headers parse
  and whose frames are not empty are independent of the cutting, also when they end in mid-message.
- **Ledger.** The records agree with the holds over a run exactly when no reservation reuses the id
  of an active hold.
- **Rounding.** The drift is at most half a cent per call, and that bound is attained, so accepted
  holds exceed the limit by at most the drift. Reserving and releasing an odd number of half cents
  does not give back the recorded reservation. A budget accepts any number of holds of an amount
  exactly when the amount is less than half a cent.
- **Flows.** A flow leaves its hold active exactly when, with the hold placed, the mandate or a
  template is missing, a port of the challenge throws or answers without an id, or a port between
  the adapter and the settlement throws; `LeakingFlow` is one such flow. Retrying the intent then
  strands the leaked quantity on both records, and no later run gives it back.
- **Approval.** Results must not share an id between sessions. A finalized rejection is stored under
  the prior decision's id, so evaluating the action again replaces it; an approval survives.
- **Outbox.** Attempt headers are 1, 2, ..., n exactly when no id that was posted is notified again.
  A pass ends at its first failure, yet always makes progress: N failed entries need at most
  N (M - 1) passes that find work. Classification, the bound on posts and the drain hold for every
  clock; only the backoff needs a monotone one. Redelivery by an operator is outside the M cycles.
- **Worker.** With a port that returns a promise the worker is single-flight. A port that throws at
  once, with no error handler or one that throws at once too, leaves `inFlight` set to a finished
  pass, because the `finally` block runs before the assignment; no later pass ever starts.
- **Payment rail.** Two confirmations never share a transaction in a serial run, unless one was
  registered for the action named "" (which the replay check reads as none). A restart forgets
  transactions that an action has moved on from, so another action may then use them. With a
  verifier, two requests for one transfer can both pass the check and both be registered; without
  one there is no such race. The agent wallet is asked to pay twice for an intent by two orders at
  once, and by a retry after the verifier refused what the wallet paid. The token of a payment is
  never compared with the intent's asset, so a transfer of any token settles. The page truncates
  digits beyond the sixth, so it pays amounts that the server then refuses.

## Model

| member | source | states |
|---|---|---|
| McpFraming.ExtractMcpMessages | samples/afal-mcp-server/server.ts:320-347 | the loop returns the messages and the rest that the one-turn-at-a-time recursion returns, or throws with it |
| McpFraming.StdioServer.Data | samples/afal-mcp-server/server.ts:353-357 | one data event appends the chunk, delivers what extraction finds and keeps its rest, or keeps everything when it throws |
| McpFramingProofs.NextStable | samples/afal-mcp-server/server.ts:293-345 | a loop turn that does anything but wait does the same whatever text follows, which then follows its rest |
| McpFramingProofs.NextLocal | samples/afal-mcp-server/server.ts:293-345 | a turn that makes progress does the same on exactly the text it consumes and leaves nothing |
| McpFramingProofs.PrefixStep | samples/afal-mcp-server/server.ts:320-357 | draining a prefix and then the remainder of an undisturbed stream delivers and leaves what draining it whole does |
| McpFramingProofs.FeedUndisturbed | samples/afal-mcp-server/server.ts:353-357 | any split of an undisturbed stream delivers the same messages in the same order and the same rest |
| McpFramingProofs.ChunkIndependence | samples/afal-mcp-server/server.ts:293-357 | for every stream, all splits into non-empty chunks agree with one event if and only if turn by turn no header is malformed and nothing consumable follows an empty frame, or nothing at all can be consumed |
| McpFramingProofs.CleanOrStuck | samples/afal-mcp-server/server.ts:320-347 | that condition is exactly that one event leaves nothing a turn could consume |
| McpFramingProofs.ParsingStreams | samples/afal-mcp-server/server.ts:293-357 | a stream whose headers parse and whose frames are not empty is independent of the chunking, also when it ends inside a message |
| McpFramingRoundTrip.DeclaredLengthOfHeader | samples/afal-mcp-server/server.ts:305-308 | the header a sender writes for n characters is read as n, below the length that reads as infinity |
| McpFramingRoundTrip.NextOfFrame | samples/afal-mcp-server/server.ts:293-332 | a Content-Length frame, with any further headers, is taken whole: its body delivered and what follows left, or an early return when the body is empty |
| McpFramingRoundTrip.NextOfLine | samples/afal-mcp-server/server.ts:335-343 | a line is delivered without the white space around it, a carriage return before the line end included |
| McpFramingRoundTrip.NextOfBlank | samples/afal-mcp-server/server.ts:335-343 | a line of white space is skipped |
| McpFramingRoundTrip.BadLengthThrows | samples/afal-mcp-server/server.ts:305-308 | a first header whose length is no number, or a negative one, makes the extraction throw |
| McpFramingRoundTrip.NextOfUnit | samples/afal-mcp-server/server.ts:293-345 | one turn on a message in either framing takes exactly that message |
| McpFramingRoundTrip.RoundTrip | samples/afal-mcp-server/server.ts:293-347 | any list of non-empty messages in mixed framing, with further headers and with white space around lines, is extracted as that list with an empty rest |
| McpFramingRoundTrip.RoundTripInChunks | samples/afal-mcp-server/server.ts:293-357 | however the stream is cut, the server delivers what the client wrote, in order |
| McpFramingRoundTrip.RoundTripPartial | samples/afal-mcp-server/server.ts:293-347 | whole messages followed by the start of another are extracted as those messages, with the start as the rest |
| McpFramingRoundTrip.PartialInChunks | samples/afal-mcp-server/server.ts:293-357 | at any moment, however the bytes arrived, the server has delivered just the messages that have fully arrived |
| McpFramingRoundTrip.EmptyFramesShow | samples/afal-mcp-server/server.ts:324-329 | with zero-length frames among the messages, the chunking is invisible if and only if none of them has anything after it |
| Ats.InMemoryAtsService.ReserveMonetaryBudget | backend/ats/service.ts:183-227 | the store becomes the specified ledger, or is unchanged and the specified error is thrown; whole-cent records stay exact |
| Ats.InMemoryAtsService.SettleMonetaryReservation | backend/ats/service.ts:229-270 | as specified for settling, or unchanged with the error; exact records stay exact and consume just the hold's amount |
| Ats.InMemoryAtsService.ReleaseMonetaryReservation | backend/ats/service.ts:272-313 | as specified for releasing, or unchanged with the error; exact records stay exact |
| Ats.InMemoryAtsService.ReserveResourceCapacity | backend/ats/service.ts:366-432 | budget, quota and hold are written together, or nothing is and the first failing check is reported; on a consistent ledger it is accepted if and only if both records have room, and consistency is kept if and only if it fails or the id is not active |
| Ats.InMemoryAtsService.SettleResourceReservation | backend/ats/service.ts:434-494 | as specified, or unchanged with the error; a consistent ledger stays so, and the call succeeds if and only if the hold is active, moving exactly its quantity |
| Ats.InMemoryAtsService.ReleaseResourceReservation | backend/ats/service.ts:496-554 | as specified, or unchanged with the error; a consistent ledger stays so, and the call succeeds if and only if the hold is active, giving exactly its quantity back |
| ResourceLedgerProofs.HoldCovered | backend/ats/service.ts:459-474 | in a consistent ledger an active hold is covered by the recorded reservation of its budget and of its quota, so no clamp acts |
| ResourceLedgerProofs.ReserveAccepts | backend/ats/service.ts:379-426 | on a consistent ledger a reservation is accepted if and only if both records exist and consumption, active holds and the quantity stay within both limits, to the last unit; then the hold is as asked and both records reserve it; otherwise the first failing check is reported |
| ResourceLedgerProofs.ReserveConsistent | backend/ats/service.ts:366-432 | reserving keeps both records equal to the sums of their active holds if and only if the id is not active |
| ResourceLedgerProofs.SettleIsExact | backend/ats/service.ts:434-494 | settling succeeds if and only if the hold is active, marks it settled at the time given and moves exactly its quantity from reserved to consumed on its two records and nothing else; otherwise the error says whether the hold is unknown or closed |
| ResourceLedgerProofs.ReleaseIsExact | backend/ats/service.ts:496-554 | releasing succeeds if and only if the hold is active, marks it released with time and reason and gives exactly its quantity back on its two records and nothing else; otherwise the error says whether the hold is unknown or closed |
| ResourceLedgerProofs.StepConsistent | backend/ats/service.ts:366-554 | any one call keeps the sums, the availability and the exhausted status right if and only if it does not reuse an active id |
| ResourceLedgerProofs.RunConsistent | backend/ats/service.ts:366-554 | over every run the invariant holds throughout if and only if no active id is reused |
| ResourceLedgerProofs.Conservation | backend/ats/service.ts:366-554 | start consumption, what the run settled, what is held and what is available add up to the limit, and consumption grew by exactly what was settled, per budget and per quota |
| ResourceLedgerProofs.OpenedAndClosed | backend/ats/service.ts:446-449 | successful reservations of an id and its settlements and releases alternate: each hold is closed at most once |
| MonetaryLedgerProofs.RoundingError | backend/ats/service.ts:28-34 | the stored amount is a whole number of cents within half a cent of the exact one, and equal to it when that is whole |
| MonetaryLedgerProofs.ReserveMoneyAccepts | backend/ats/service.ts:191-220 | with a record within some bound of its holds, what fits with that to spare is accepted and nothing that exceeds by more, so exactly what fits when there is no drift; the hold is as asked, the records are the sums to the cent, and each failure has its error |
| MonetaryLedgerProofs.SettleMoneyIs | backend/ats/service.ts:233-265 | settling succeeds if and only if the hold is active, marks it settled, records its amount as consumed to the cent, and touches nothing else |
| MonetaryLedgerProofs.ReleaseMoneyIs | backend/ats/service.ts:277-308 | releasing succeeds if and only if the hold is active, marks it released with its reason, consumes nothing, and touches nothing else |
| MonetaryLedgerProofs.StepDrift | backend/ats/service.ts:183-313 | one call moves the recorded reservation at most half a cent away from the exact sum of holds, clamping included |
| MonetaryLedgerProofs.DriftBound | backend/ats/service.ts:183-313 | after n calls on a budget the record is off by at most n half cents, for positive amounts of any precision |
| MonetaryLedgerProofs.DriftBoundAttained | backend/ats/service.ts:28-34 | for every n some run of n calls drifts by exactly n half cents |
| MonetaryLedgerProofs.SmallAmountsEscapeTheLimit | backend/ats/service.ts:195-218 | for every limit and amount up to it, every number of reservations of the amount is accepted if and only if it is less than half a cent, and then what is held grows without bound |
| MonetaryLedgerProofs.ReserveOvershoot | backend/ats/service.ts:195-200 | an accepted reserve leaves holds above what the limit leaves by at most the drift before it |
| MonetaryLedgerProofs.RunOvershoot | backend/ats/service.ts:183-313 | so after n calls on a budget by at most n half cents more |
| MonetaryLedgerProofs.ReserveThenRelease | backend/ats/service.ts:183-313 | releasing restores the recorded reservation if and only if the amount is not an odd number of half cents |
| MonetaryLedgerProofs.StepExact | backend/ats/service.ts:183-313 | with whole cents one call keeps every record exact and consumes exactly what it settles |
| MonetaryLedgerProofs.ExactConservation | backend/ats/service.ts:183-313 | with whole cents limit = start consumption + settled + held + available after any run |
| Amn.InMemoryAmnService.EvaluateAuthorization | backend/amn/service.ts:149-165 | tables and answer are those of the specification, and agreeing tables stay so |
| Amn.InMemoryAmnService.CreateRequest | backend/amn/service.ts:167-264 | tables and answer as specified, the challenge left behind when the context template is missing; agreement is kept for an evaluated decision |
| Amn.InMemoryAmnService.ApplyResult | backend/amn/service.ts:266-301 | the result is recorded under the session's challenge and action over its template; session and challenge take its verdict; agreement is kept if and only if no other session has the result's id |
| Amn.InMemoryAmnService.ResumeSession | backend/amn/service.ts:303-346 | a stored final decision is returned as it is; otherwise the decision is finalized, stored and named by the session; agreement is kept and the decision is latched |
| Amn.InMemoryAmnService.Finalize | backend/amn/service.ts:348-378 | the final decision is stored; a refusal keeps the prior decision's id and says rejected or expired with state, reason and time of the result, an approval says what the final template says, both for what the prior decision was for |
| ApprovalsProofs.ApplyAgrees | backend/amn/service.ts:266-301 | applying a result keeps all tables in agreement if and only if no other session's result has its id |
| ApprovalsProofs.StepAgrees | backend/amn/service.ts:149-378 | evaluate, create, apply and resume keep the tables in agreement |
| ApprovalsProofs.RunAgrees | backend/amn/service.ts:149-378 | in every reachable state a pending session has no result and a pending challenge, a closed one a stored result and challenge of its verdict, a finalized one a stored final decision |
| ApprovalsProofs.EmptyAgrees | backend/amn/store.ts:45-66 | empty tables agree, so the run theorem applies from the start |
| ApprovalsProofs.ResumeLatched | backend/amn/service.ts:318-325 | resuming a finalized session returns its decision and writes nothing |
| ApprovalsProofs.RunLatched | backend/amn/service.ts:149-378 | whatever happens to other actions and whatever results are applied, a finalized session keeps its decision |
| ApprovalsProofs.DecisionLatch | backend/amn/service.ts:303-346 | after a successful resume every later resume returns the same decision and writes nothing, until the action is evaluated or requested again |
| ApprovalsProofs.FirstResume | backend/amn/service.ts:327-376 | the first resume decides as the stored result says: approved, rejected for rejected and cancelled, expired for expired; it stores under the final template's id for an approval and the prior id otherwise |
| ApprovalsProofs.EvaluationAfterLatch | backend/amn/service.ts:149-165 | evaluating again leaves an approval in force and replaces any other final decision |
| ApprovalRecords.EvaluateWrites | backend/amn/service.ts:149-165 | an evaluation answers and stores the template's outcome for the action, subject, mandate, policy and account given, or reports the unknown mandate or action |
| ApprovalRecords.CreateAnswers | backend/amn/service.ts:167-256 | a request answers a pending challenge, its context and a pending session that refer to each other and to the prior decision |
| ApprovalRecords.CreateStores | backend/amn/service.ts:227-257 | and stores just those three |
| ApprovalRecords.CreateRefused | backend/amn/service.ts:168-192 | it fails if and only if a template is missing, and leaves the challenge behind exactly when only the context template is |
| ApprovalRecords.ApplyWrites | backend/amn/service.ts:266-301 | an applied result is stored with the session's challenge and action, and its challenge and session take its verdict and time; each unknown record has its error |
| ApprovalRecords.FinalDecisionIs | backend/amn/service.ts:348-374 | the decision for each verdict, field by field |
| ApprovalRecords.FirstResumeWrites | backend/amn/service.ts:303-346 | a first resume answers that decision and writes it and the session finalized on it, and nothing else |
| ApprovalRecords.ResumeRefused | backend/amn/service.ts:303-316 | a resume is refused for an unknown session, one without a result, or on the first resume without its prior decision or the final template, and writes nothing then |
| Orchestrators.FlowOrchestrator.AuthorizeIntent | backend/afal/mock/orchestrator.ts:378-421 | evaluation and, when challenged, request, surface, apply, resume and receipt, with the tables of the specification at every throw |
| Orchestrators.FlowOrchestrator.DecideAndSettleResource | backend/afal/mock/orchestrator.ts:378-487 | the flow once its hold is placed: decide, then settle, or release on refusal and on failed execution |
| Orchestrators.FlowOrchestrator.DecideAndSettlePayment | backend/afal/mock/orchestrator.ts:223-334 | the payment twin of it |
| Orchestrators.FlowOrchestrator.ExecuteResourceSettlementFlow | backend/afal/mock/orchestrator.ts:355-487 | as specified, and from the inputs: it succeeds if and only if the hold is placed, the decision approves, the adapter acts and all is recorded, it acts if and only if the first three, and every other answer and what becomes of the hold follow from what failed; consistency kept, exactly the quantity charged on success, and action only when permitted |
| Orchestrators.FlowOrchestrator.ExecutePaymentFlow | backend/afal/mock/orchestrator.ts:201-334 | the payment twin, over the rounding ledger; whole-cent records stay exact and consume exactly the amount on success |
| FlowProofs.AuthorizedMeansPermitted | backend/afal/mock/orchestrator.ts:378-423 | the flow is authorized if and only if the intent needs no challenge or its session is finalized on a stored approval |
| FlowProofs.AuthorizeOutcome | backend/afal/mock/orchestrator.ts:378-421 | the decision throws if and only if the mandate or a template is missing, a port of the challenge throws or the surface answers without an id; otherwise its result is that of the initial template, or by the surface's verdict that of the final template, rejected or expired |
| FlowProofs.AnsweringNeverLeaks | backend/afal/mock/orchestrator.ts:378-487 | with a known mandate, complete templates and ports that answer, nothing leaks, whatever is approved or executed |
| FlowProofs.ResourceTransaction | backend/afal/mock/orchestrator.ts:355-487 | the flow keeps the ledger consistent, consumes the quantity on success and nothing otherwise, and leaves the hold active and its quantity reserved if and only if it was placed and an input outside the guarded releases makes a call throw |
| FlowProofs.PlacesIsHoldPlaced | backend/afal/mock/orchestrator.ts:356-376 | the hold is placed if and only if the intent is supported, the lookups answer, and budget and quota have room beside what they consumed and hold |
| FlowProofs.ResourceFlowEnds | backend/afal/mock/orchestrator.ts:355-487 | the flow succeeds if and only if the hold is placed, the decision approves, the adapter acts and all is recorded; every other ending has its answer and leaves the hold reserved, or released with its time and reason, as its inputs say |
| FlowProofs.ExecutedOnlyIfPermitted | backend/afal/mock/orchestrator.ts:423-453 | the adapter acts only for a permitted intent, and success implies that it acted |
| FlowProofs.FlowsConserve | backend/afal/mock/orchestrator.ts:355-487 | over any sequence of flows the fixed-id hold is inactive throughout if and only if none leaks, and then exactly the successful quantities are consumed on both records |
| FlowProofs.FlowsWithinLimits | backend/afal/mock/orchestrator.ts:355-487 | successful flows never take more than the limits leave |
| FlowProofs.AnsweringIsClean | backend/afal/mock/orchestrator.ts:355-487 | sequences with known mandates and ports that answer leak nothing, so the two results above hold of them |
| FlowProofs.LeakingFlow | backend/afal/mock/orchestrator.ts:454-487 | a concrete flow that leaks: all succeeds but the recording of the response, and the hold of 4 of 10 units stays active with nothing consumed |
| StrandedProofs.StrandedMeans | backend/ats/service.ts:387-426 | a stranded ledger records more in reserve than its holds add up to, by just the excess, on the budget and the quota, and otherwise agrees |
| StrandedProofs.ReserveStrands | backend/ats/service.ts:399-426 | reserving over an active hold strands the old quantity on both records it named |
| StrandedProofs.StrandedForGood | backend/ats/service.ts:366-554 | no later run that reuses no active id gives a stranded quantity back |
| StrandedProofs.RetryAfterLeakStrands | backend/afal/mock/orchestrator.ts:366-376 | retrying after a leak, even cleanly, strands the leaked quantity on both records, then and after every later run |
| PaymentFlowProofs.PaymentTransaction | backend/afal/mock/orchestrator.ts:201-334 | for amounts of any precision the hold stays active if and only if an unguarded port throws, and consumption moves only on success, to the rounded sum |
| PaymentFlowProofs.PaymentFlowEnds | backend/afal/mock/orchestrator.ts:201-334 | the payment twin: success exactly when the budget records room for the amount, the decision approves, the adapter acts and all is recorded; every other ending has its answer and its hold |
| PaymentFlowProofs.PaymentRestoresReservation | backend/afal/mock/orchestrator.ts:201-334 | a flow that closes its hold restores the recorded reservation if and only if the amount is not an odd number of half cents |
| PaymentFlowProofs.PaymentExact | backend/afal/mock/orchestrator.ts:201-334 | with whole cents the flow keeps the ledger exact and consumes exactly the amount on success |
| PaymentFlowProofs.PaymentOnlyIfPermitted | backend/afal/mock/orchestrator.ts:268-292 | a payment is executed only for a permitted intent |
| PaymentRunProofs.PaymentsConserve | backend/afal/mock/orchestrator.ts:201-334 | over any sequence of payment flows the hold is inactive throughout if and only if none leaks, and then recorded consumption is off from the exact total by at most half a cent for each success |
| PaymentRunProofs.PaymentsExact | backend/afal/mock/orchestrator.ts:201-334 | with whole cents exactly the successful amounts are consumed, and never more than the limit |
| PaymentRunProofs.PaymentsWithinLimits | backend/afal/mock/orchestrator.ts:201-334 | for any amounts recorded consumption stays within the limit, so the successful total exceeds it by at most half a cent for each |
| PaymentRunProofs.PaymentsDrift | backend/afal/mock/orchestrator.ts:201-334 | the recorded reservation drifts by at most a cent for each flow |
| PaymentRunProofs.AnsweringIsClean | backend/afal/mock/orchestrator.ts:201-334 | sequences with known mandates, complete templates and ports that answer leak nothing |
| OutboxPort.HttpSettlementNotificationPort.constructor | backend/afal/notifications.ts:341-354 | the limits are the options with their defaults and lower bounds; outbox and log start empty |
| OutboxPort.HttpSettlementNotificationPort.PostToReceiver | backend/afal/notifications.ts:473-560 | the retry loop sends, stores and throws as specified, whatever receivers answer |
| OutboxPort.HttpSettlementNotificationPort.NotifySettlement | backend/afal/notifications.ts:356-398 | without a callback a skipped entry is stored and nothing sent, else one cycle from attempt 0 is posted to it; classification is kept, and the numbering if and only if nothing was posted under the id |
| OutboxPort.HttpSettlementNotificationPort.RedeliverNotification | backend/afal/notifications.ts:431-447 | throws for an unknown id or no target, else one cycle from the stored attempts |
| OutboxPort.HttpSettlementNotificationPort.RedeliverFailedNotifications | backend/afal/notifications.ts:449-471 | the due entries are taken in order up to the first that fails again, which ends the pass with its throw, and the rest are not touched; classification is kept, and the cycles left fall when an entry was due |
| OutboxProofs.DeliverAttempts | backend/afal/notifications.ts:484-529 | a cycle sends consecutive attempt numbers up to the first acceptance, or all it may when there is none |
| OutboxProofs.PostLog | backend/afal/notifications.ts:473-560 | what a cycle appends to the log and the outbox; it throws if and only if none of its posts is accepted |
| OutboxProofs.PostCounts | backend/afal/notifications.ts:531-557 | a cycle below the limit stores a classified entry and counts one cycle more if and only if it throws |
| OutboxProofs.PostBacksOff | backend/afal/notifications.ts:533-554 | with a monotone clock the stored entry waits, or has waited, the sum of its backoffs since creation |
| OutboxProofs.RunCounted | backend/afal/notifications.ts:356-560 | in every worker run, whatever the clock, failed entries have 1 to M-1 cycles of A attempts, dead-lettered ones M of A, delivered ones attempts inside their current cycle |
| OutboxProofs.RunBacksOff | backend/afal/notifications.ts:531-557 | with a monotone clock every entry waits, or has waited, the sum of its backoffs, in every worker run |
| OutboxProofs.DeadLetterAge | backend/afal/notifications.ts:531-554 | with a monotone clock a dead-lettered entry is at least b(1 + m + ... + m^(M-2)) old, and (m-1) times its age at least b(m^(M-1) - 1) |
| OutboxProofs.PostNumbered | backend/afal/notifications.ts:482-500 | a cycle keeps the attempt headers of every id consecutive from 1 if and only if it starts from the stored count |
| OutboxProofs.NotifyNumbered | backend/afal/notifications.ts:356-398 | notifying keeps them so if and only if nothing was posted under the id |
| OutboxProofs.RunNumbered | backend/afal/notifications.ts:356-529 | over any run, operator redelivery included, headers are 1 to n with n the stored attempts and one idempotency key if and only if no posted id is notified again |
| OutboxProofs.PostsBounded | backend/afal/notifications.ts:449-557 | with worker passes no id is ever posted more than M times A, whatever the clock |
| OutboxProofs.MeasureBound | backend/afal/notifications.ts:531-548 | the cycles left are at most N(M-1) for N failed entries, and zero if and only if none is failed |
| OutboxProofs.PassLoopDrains | backend/afal/notifications.ts:458-468 | a pass that finds a due entry uses up a cycle even though it aborts at its first failure |
| OutboxProofs.Drain | backend/afal/notifications.ts:449-560 | after any run of notifications and worker passes, at most N(M-1) further passes find a due entry, and once that many have, none is failed, whatever receivers and clock do |
| OutboxPassProofs.LimitsOf | backend/afal/notifications.ts:345-349 | defaults of one attempt, 1000 ms, factor 2 and three cycles, and the lower bounds of given options |
| OutboxPassProofs.PostIsCycle | backend/afal/notifications.ts:482-557 | one post is a cycle: posts with the URL, id, key, event type and consecutive attempts up to the first acceptance or all allowed, the entry of the last answer, and a throw if and only if that is no acceptance |
| OutboxPassProofs.PostTimes | backend/afal/notifications.ts:477-554 | creation and attempt times, the exact due time after a failed cycle, and the exact time of dead-lettering |
| OutboxPassProofs.NotifyPosts | backend/afal/notifications.ts:356-398 | a notification with a callback URL is posted, one cycle to that URL, and throws if and only if no post of it is accepted; without one nothing is sent and a skipped entry is stored |
| OutboxPassProofs.RedeliverPosts | backend/afal/notifications.ts:431-447 | a redelivery of a stored entry with a target posts one cycle on from its attempts; any other throws and changes nothing |
| OutboxPassProofs.PassTakesPrefix | backend/afal/notifications.ts:449-471 | a pass posts one cycle to each of a prefix of the due entries in order, all but the last accepted, throws if and only if the last is not, and otherwise took them all; what it did not take is unchanged, with no post under its id |
| OutboxPassProofs.DueExactly | backend/afal/notifications.ts:452-455 | an entry is due if and only if it is stored, failed, and its time, if it has one, has come |
| OutboxPassProofs.DueInOrder | backend/afal/notifications.ts:451-455 | the due entries are in the order in which they are stored |
| OutboxPassProofs.RunAddressed | backend/afal/notifications.ts:356-560 | in every state of every run failed entries have targets, so every pass takes such a prefix |
| OutboxWorker.SettlementNotificationOutboxWorker.constructor | backend/afal/notifications.ts:258-268 | not running, no pass, interval at least 10 and 1000 by default |
| OutboxWorker.SettlementNotificationOutboxWorker.StartTimer | backend/afal/notifications.ts:270-279 | sets the timer once |
| OutboxWorker.SettlementNotificationOutboxWorker.StopTimer | backend/afal/notifications.ts:281-291 | clears the timer and awaits what is in flight |
| OutboxWorker.SettlementNotificationOutboxWorker.TickNow | backend/afal/notifications.ts:293-318 | joins the pass in flight or starts one; what runs at once, its finally included, comes before the assignment |
| OutboxWorker.SettlementNotificationOutboxWorker.PortSettled | backend/afal/notifications.ts:301-314 | the pass records the result and ends, or goes to the error handler |
| OutboxWorker.SettlementNotificationOutboxWorker.HandlerSettled | backend/afal/notifications.ts:308-314 | the pass ends with the port's error, or with the handler's own |
| OutboxWorker.StepSingleFlight | backend/afal/notifications.ts:270-318 | every event keeps at most one pass open, and the flag right if and only if it does not start a pass that ends at once |
| OutboxWorker.RunSingleFlight | backend/afal/notifications.ts:270-318 | over every interleaving the flag names exactly the open pass throughout if and only if no pass ends before its promise is stored |
| OutboxWorker.NeverTwo | backend/afal/notifications.ts:293-318 | two passes are never open together, however the port behaves |
| OutboxWorker.TickStartsWhenIdle | backend/afal/notifications.ts:293-298 | while the flag is right a tick starts a pass if and only if none is open |
| OutboxWorker.TicksShareTheOutcome | backend/afal/notifications.ts:293-318 | a tick issued while a pass is open starts nothing and gets that pass's outcome, for good |
| OutboxWorker.StopQuiesces | backend/afal/notifications.ts:281-291 | after a stop nothing starts on its own, and only the awaited pass can still be open |
| OutboxWorker.InitialIs | backend/afal/notifications.ts:258-268 | a new worker is idle, with an interval of 1000 ms or the one given, never below 10 |
| OutboxWorker.StartEnablesTicks | backend/afal/notifications.ts:270-291 | a start enables the timer's ticks, which do what manual ticks do, and a stop disables them |
| OutboxWorker.IdleTickStarts | backend/afal/notifications.ts:298-317 | an idle tick starts the next pass, in the stage its port call leaves it, and notes the time and a failure |
| OutboxWorker.PassEnds | backend/afal/notifications.ts:301-314 | a pass ends with the port's own result or error, unless the error handler fails with another, and the status says which |
| OutboxWorker.TickGetsThePortsResult | backend/afal/notifications.ts:293-318 | the tick that started a pass receives the port's own result, whatever happens before it settles and after |
| OutboxWorker.WedgedByOneTick | backend/afal/notifications.ts:298-315 | one tick of a port that throws at once wedges a fresh worker |
| OutboxWorker.WedgedForGood | backend/afal/notifications.ts:293-296 | a wedged worker starts no pass again and every tick gets the old failure |
| OnchainVerifierProofs.UnitsExact | app/payment-rail/onchain-verifier.ts:88-98 | accepted if and only if a plain decimal with no more than the allowed fraction digits, and then the units are its value times 10^decimals |
| OnchainVerifierProofs.SameUnitsSameAmount | app/payment-rail/server.ts:336-340 | two accepted amounts have equal units if and only if they denote the same number |
| OnchainVerifierProofs.PageAgreesWithServer | app/payment-rail/server.ts:539-543 | the page's units equal the server's for every amount the server accepts |
| OnchainVerifierProofs.PageTruncates | app/payment-rail/server.ts:539-543 | for any plain decimal the page's units are its value rounded down, and the server refuses it if and only if it has too many digits |
| OnchainVerifierProofs.PageReadsBarePoint | app/payment-rail/server.ts:539-543 | the page reads a point with no digits before or after it, the missing part as zero |
| OnchainVerifierProofs.ServerRefusesBarePoint | app/payment-rail/onchain-verifier.ts:88-91 | which the server refuses |
| OnchainVerifierProofs.AmountWordReadsBack | app/payment-rail/onchain-verifier.ts:81-86 | the padded hexadecimal word reads back as the amount, and is 64 digits if and only if the amount is below 2^256 |
| OnchainVerifierProofs.AddressWordReadsBack | app/payment-rail/onchain-verifier.ts:65-79 | the padded word of a valid address is 64 digits and read as a topic is the address in lower case |
| OnchainVerifierProofs.ChainIdReadsBack | app/payment-rail/onchain-verifier.ts:128-130 | a chain id answered as a hexadecimal quantity is read as that number |
| OnchainVerifierProofs.MatchIsTransfer | app/payment-rail/onchain-verifier.ts:161-175 | the callback accepts a log if and only if it is the EIP-20 Transfer of the expected token, parties and value, passes over it if and only if contract, event, sender, recipient or value, read in that order, is another, and throws on what it cannot read |
| OnchainVerifierProofs.FindLogFirst | app/payment-rail/onchain-verifier.ts:161-175 | an index is found if and only if it is the first expected Transfer and every log before it could be read |
| OnchainVerifierProofs.FindLogFails | app/payment-rail/onchain-verifier.ts:161-181 | nothing is found if and only if every log is readably another, and a throw comes from the first log that is neither |
| OnchainVerifierProofs.VerifyMeansPaid | app/payment-rail/onchain-verifier.ts:127-190 | verification succeeds with an index if and only if the claimed chain has the successful, included transaction with that Transfer first at that index |
| OnchainVerifierProofs.VerifyRefuses | app/payment-rail/onchain-verifier.ts:127-154 | the reasons for which a claim is refused before its logs are searched, in order |
| OnchainVerifierProofs.PagePaymentVerifies | app/payment-rail/server.ts:544-549 | the page's call data is the transfer selector and two words if and only if the units are below 2^256, and then the log it causes is the one the verifier looks for |
| PaymentRail.PaymentRailService.constructor | app/payment-rail/server.ts:250-285 | the maps are loaded from the file and the index rebuilt by the loop over the confirmations |
| PaymentRail.PaymentRailService.RegisterConfirmation | app/payment-rail/server.ts:465-467 | both maps and the file are written together |
| PaymentRail.PaymentRailService.ConfirmWalletPayment | app/payment-rail/server.ts:776-815 | refused as a replay, refused by the verifier, or registered; state and reply as specified |
| PaymentRail.PaymentRailService.ExecuteAgentWalletPayment | app/payment-rail/server.ts:438-469 | state and result as specified for every failure of wallet, replay check, match and verifier |
| PaymentRail.PaymentRailService.BeginExecution | app/payment-rail/server.ts:854-866 | the execute route up to its call of the wallet: counters, lookup and, when the wallet is not needed, the reply |
| PaymentRail.PaymentRailService.ResumeExecution | app/payment-rail/server.ts:866-898 | the rest of the route from the wallet's answer on, in whatever state the service then is |
| PaymentRail.PaymentRailService.ExecutePayment | app/payment-rail/server.ts:854-898 | the two parts with nothing else happening while the wallet pays |
| PaymentRailProofs.NoSharedTransaction | app/payment-rail/server.ts:465-466 | two confirmations of a consistent registry never share a transaction |
| PaymentRailProofs.RegisterConsistent | app/payment-rail/server.ts:465-466 | registering keeps every confirmation indexed to its own action if and only if no other action's confirmation holds the transaction |
| PaymentRailProofs.StepRegisters | app/payment-rail/server.ts:776-898 | a request registers the payment it brings if and only if it passes every check, and changes the registry in no other way |
| PaymentRailProofs.StepConsistent | app/payment-rail/server.ts:776-898 | a serial request or restart keeps the registry consistent if and only if it does not take a transaction from the action named "" |
| PaymentRailProofs.RunConsistent | app/payment-rail/server.ts:250-304 | over every serial run, restarts included, the registry is consistent throughout under exactly that condition |
| PaymentRailProofs.NamedRunConsistent | app/payment-rail/server.ts:776-784 | when every payment names its action, two actions never share a transaction |
| PaymentRailProofs.RunKeepsOwners | app/payment-rail/server.ts:776-806 | between restarts a transaction once registered for a named action stays registered for it |
| PaymentRailProofs.LoadRoundTrip | app/payment-rail/server.ts:271-304 | persisted confirmations load as they were, in order |
| PaymentRailProofs.LoadKeepsLast | app/payment-rail/server.ts:271-285 | of several stored confirmations of an action the last is loaded |
| PaymentRailProofs.StartedConsistent | app/payment-rail/server.ts:250-269 | whatever the file holds, the service starts consistent if and only if no two loaded actions share a transaction |
| PaymentRailProofs.RestartConsistent | app/payment-rail/server.ts:250-304 | a restart keeps the confirmations and consistency, and the index of just the transactions in use |
| PaymentRailProofs.RestartKeepsOwners | app/payment-rail/server.ts:254-257 | a restart keeps every owner if and only if every indexed transaction of a named action is in use |
| PaymentRailProofs.RestartForgets | app/payment-rail/server.ts:254-257 | after a restart a payment is a replay if and only if it was one and its transaction is in use |
| PaymentAnswers.MatchMeans | app/payment-rail/server.ts:317-351 | a confirmation matches if and only if it names the intent, asset and chain, both amounts are decimals of at most six digits after the point and equal as numbers, and the recipient is the settlement address when there is one |
| PaymentAnswers.ConfirmAnswers | app/payment-rail/server.ts:776-815 | a confirmation is a replay if and only if its transaction is another named action's, fails if and only if the verifier then refuses it, and else is stored as given and indexed |
| PaymentAnswers.BeginAnswers | app/payment-rail/server.ts:854-887 | unavailable while failures remain; else the wallet is asked if and only if there is one and no confirmation; else a matching confirmation is settled, and the other answers as configured |
| PaymentAnswers.ResumeAnswers | app/payment-rail/server.ts:438-469 | from the wallet's answer on, the intent is settled if and only if the payment is no replay, matches and is not refused; then it is stored and the settlement is of its transaction, amount, parties and time; otherwise nothing is stored |
| PaymentRaceProofs.UndisturbedConfirm | app/payment-rail/server.ts:776-806 | the steps of a confirm request with nothing in between are the confirm route |
| PaymentRaceProofs.UndisturbedExecute | app/payment-rail/server.ts:854-898 | the steps of an execute request with nothing in between are the execute route |
| PaymentRaceProofs.RaceRunConsistent | app/payment-rail/server.ts:449-469 | over every interleaving of requests at the wallet and the verifier the registry is consistent throughout if and only if no write is overtaken by another action's |
| PaymentRaceProofs.NoVerifierNoRace | app/payment-rail/server.ts:776-806 | without a verifier check and write are one step, and a write is overtaken if and only if it takes a transaction from the action named "" |
| PaymentRaceProofs.TwoActionsOneTransfer | app/payment-rail/server.ts:776-806 | with a verifier, one verifiable transfer claimed for two actions at the same time is registered for both |
| PaymentRaceProofs.WalletAskedOnce | app/payment-rail/server.ts:865-868 | over every interleaving the wallet is asked at most once for each intent if and only if no order finds it asked before and unconfirmed |
| PaymentRaceProofs.ConfirmedNeverAsked | app/payment-rail/server.ts:865-868 | once an intent has a confirmation the wallet is never asked for it again, whatever interleaves |
| PaymentRaceProofs.TwoOrdersAskTwice | app/payment-rail/server.ts:865-868 | two orders of an intent at the same time ask the wallet twice |
| PaymentRaceProofs.RetryAsksAgain | app/payment-rail/server.ts:445-463 | so does a retry after the wallet paid and the verifier refused |
| PaymentRaceProofs.SerialAsksBounded | app/payment-rail/server.ts:854-898 | for one request after the other the wallet is asked for an intent at most once more than a failure was answered, and not at all once it is confirmed |
| SettlementProofs.RunBacked | app/payment-rail/server.ts:786-806 | with a verifier every confirmation stored in any serial run, restarts included, points at a transfer that pays for it |
| SettlementProofs.RaceRunBacked | app/payment-rail/server.ts:449-469 | and so in any interleaving at the wallet and the verifier |
| SettlementProofs.SettledFrom | app/payment-rail/server.ts:877-882 | a wallet settlement is that of a stored confirmation that matches the intent |
| SettlementProofs.SettlementIsForIntent | app/payment-rail/server.ts:317-410 | every wallet settlement is for the intent's action, decision, account, asset, chain and amount, and its settlement address when it has one |
| SettlementProofs.BackedPays | app/payment-rail/onchain-verifier.ts:161-189 | for a backed, matching confirmation the log at the recorded index is a Transfer of the token and between the parties it names, of exactly the intent's units, to its settlement address when it has one |
| SettlementProofs.SettlementRestsOnTransfer | app/payment-rail/server.ts:854-890 | with a verifier and an empty start every wallet settlement, after any run, is that of a stored confirmation that matches the intent, is backed at its recorded log index, and pays for the intent |
| SettlementProofs.TokenUnchecked | app/payment-rail/server.ts:317-351 | the match with the intent never looks at the token |
| SettlementProofs.AnyTokenSettles | app/payment-rail/server.ts:776-882 | a verified payment in any token is confirmed and then settles the intent |
| SettlementProofs.TokenOfTheAsset | app/payment-rail/onchain-verifier.ts:162-164 | the token that moved is the asset's if and only if the confirmation names the asset's token |

## Left out

- ApprovalsProofs.RunAgrees: template ids are taken to be distinct across actions and between initial and final decisions, final templates to approve, requests to be made with an evaluated decision, and results to have non-empty ids of their own; `ApplyAgrees` shows that the last is necessary.
- FlowProofs.FlowsConserve: flows run one after the other, since each ledger and approval call is one step and the code takes no lock across them.
- MonetaryLedgerProofs.DriftBound: doubles are taken as exact, so representation error and the notation of amounts from 10^21 on are not modelled; neither is `parseFloat` of text that is no number.
- OutboxProofs.RunCounted: operator redelivery is not part of these runs, since it goes on after dead-lettering and ignores backoff; it is part of `RunNumbered`.
- OutboxProofs.DeadLetterAge: the clock is monotone, without which a due time says nothing of the age; timestamps are integers, while the code compares ISO strings; the options are integers, while the code takes any number.
- SettlementProofs.SettlementRestsOnTransfer: the chain is a fixed function; reorganisations are not modelled.
- Flows and ports without reservation support (the `consume*` fallbacks), accounts, freezing and the plain consume methods, which ignore reservations.
- Optional fields that the approval templates add to a result beyond its receipt, overrides of the approval context, descriptive fields of the records, and direct calls to create a challenge, build a context or record a result.
- Callback resolution and registration: the resolved URL is an input. The pause between attempts, the JSON file and SQLite outbox stores (whose list order differs from the in-memory one), and seeds.
- The process-level effect of an unhandled rejection of a timer tick and of a throw while the framing handles a data event, and the worker's status as read by an operator.
- Constructors of the in-memory stores that copy lists of records: the tables are given.
- HTTP routing, JSON parsing and shape checks of request bodies, service authentication, the seeded payment adapter (it settles or throws), and the pages' markup.
- Folding of letters outside ASCII when transaction hashes are compared in lower case.
- Command spawning for the agent wallet and JSON-RPC transport: the wallet's and the node's answers are inputs.
- AIP credential checks, admin audit, the provider receipt gate and failure-code mapping, which are single-branch facts.
