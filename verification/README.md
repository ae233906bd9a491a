# Verified model of the loan pipeline

A Dafny 4.11 model of the parts of the loan origination system in which a mistake costs money, loses an event or
misreads a passport, with proofs of what those parts guarantee. `dafny verify dfyconfig.toml` checks everything.

| files | what they model |
|---|---|
| `Rounding`, `Annuity`, `Emi`, `Schedule`, `Amortization` | the instalment formula (both implementations), the counter-offers, the rounded amortization loop |
| `Workflow`, `Idempotency`, `Protocol`, `MoneySafety`, `Execution` | the four-node disbursement graph, its audit trail, the idempotency table, concurrent requests as interleaved steps, the request handler as a run of those steps |
| `Prospects`, `Orchestrator`, `Resumption`, `Cancellation`, `PaidPromise`, `UnpaidPromise` | the paused applications, resumes and cancels that drive the disbursement agent, and when money can still leave |
| `Broker`, `ProgressBroker`, `Streams`, `StreamGuarantees`, `EventStream`, `PipelineRun` | the progress broker, the event streams over it, the background run that feeds it |
| `Mrz`, `Passport` | check digits, line repair and the TD3 parser |
| `RateLimiter` | the sliding window over an expiring sorted set |
| `StableSort`, `CanonicalJson`, `CanonicalOutput` | recursive key sorting and the assembled output |

## How it is modelled

- Code that changes things step by step is written as methods and classes: the repayment loop, the repository and its
  rows, the request handler, the store of paused applications, the broker and its queues, the rate limiter, the MRZ
  loops. Each method is tied to a function of the old state, and the properties are proved about those functions.
- Concurrency is a state machine whose steps are the atomic ones: a database call, a graph node, the send and the
  receipt of a response. Runs are arbitrary sequences of steps, with duplicates, conflicts, errors raised anywhere, and
  crashes. `Execution.ExecuteDisbursement` shows that the handler itself, statement by statement, stays inside that
  machine.
- The components `owners`, `origin`, `saved`, `sent`, `available`, `lastAt` and `log` of the machines' states hold history that the
  program does not keep; no answer, payment or event depends on them.

## What the code does that its names and comments do not say

Each of these is proved, with the exact condition under which the expected property does hold.

- **Sums of a schedule.** When the rounded instalment is a little high, the balance reaches zero early and the clamp
  hides further payments: three cents over five months at no interest are repaid with more than `total_repayment`. The
  sums are exact if and only if the recurrence without the clamp is not negative when the last row opens
  (`SumsAreExactIff`; at no interest `InterestFreeSumsAreExactIff`), and whenever one discounted instalment covers the
  drift of the earlier rows (`LargePaymentsAreExact`).
- **Tenure.** Validation tests truthiness only, so a negative tenure passes and gets an empty schedule. The audit trail is
  then broken exactly when money also leaves (`TrailBreaksIff`, `NegativeTenuresBreakTheTrail`).
- **FAILED rows.** A FAILED row reads as absent but its key is taken, so no retry is ever paid or answered
  (`SettledForGood`). A FAILED row may stand for money that has left: it can come to that for a request if and only if its
  terms are complete, its amount is positive and its schedule can be made (`PaidYetFailedIff`).
- **"DISBURSED".** The orchestrator gives this answer for every 2xx response, including the 202 of a duplicate in progress
  and a receipt whose status is FAILED. With a receipt, money has left if and only if the request stored under the key pays,
  the resume's own request under an injective hash (`DisbursedAnswerIsTrueIff`). With a 202 it may never leave
  (`PromisedButNeverPaid`); it has left or still can if and only if the key's owner is paid or can be
  (`PromiseComesTrueIff`).
- **Counter-offers.** What is saved for a counter-offer is the underwriting agent's object, not its list of offers, so
  choosing one always raises: no chosen offer is ever sent (`OnlyApprovalsAreSent`), and only an approval can lead to a
  payment (`OnlyApprovalsArePaidIff`).
- **Clearing.** A resume drops whatever is paused when it clears, a newer pause included (`ANewerPauseIsLost`); it drops the
  pause it has read if and only if no other state was saved since (`ClearDropsWhatWasReadIff`).
- **Cancel.** A cancel forgets the pause; it does not recall an attempt under way (`CancelDoesNotRecall`). It stops all
  payments if and only if no attempt under way can be paid, which is decided by where each attempt stands, by its terms
  and by its key (`CancelStopsPaymentsIff`, `StillPaysIff`).
- **"Pay Faster".** The offer is a shorter loan with a higher instalment only from a base tenure of twelve months on
  (`PayFasterNeedsAYear`).
- **Streams.** A stream that finds an earlier run's terminal event in its history stops there and hides the run in progress
  (`ALaterRunIsHidden`); something live is shown if and only if the history holds no terminal event
  (`LiveEventsAreShownIff`). A run can announce two terminal events, in exactly the cases of `AnnouncedTwice`. The expiry
  clock runs for exactly the buffers that end with a terminal event, provided buffers hold at least one event
  (`ClockTracksBuffersIff`).
- **Passports.** Dates come back exactly for the years 1931 to 2030, so an expiry in 2031 is read as 1931
  (`DateComesBackIff`, `ParseInvertsLayout`). The comparisons with the check digits are commented out in the parser; the
  model reads a line whatever its check digits are.
- **Rate limiter.** It limits distinct seconds, not calls (`AllowedSecondsAreLimited`). Allowed calls stay within the limit in
  every run if and only if none is ever allowed or the window is empty (`LimitsCallsIff`); they do for a client that never
  calls twice in one second (`SpacedCallsAreLimited`).
- **Canonical output.** The documentation promises deterministic output. Applicants with neither id nor role are sorted by
  memory address, and ties keep their input order: the output is determined by the records if and only if applicants with
  one key are equal (`ApplicantsAreDeterministicIff`, `AddressesShow`), and likewise for evidence on one path.

## Idealizations

- Money is an integer number of cents, rates are exact reals, rounding is to the nearest cent with ties to even.
- A database call either takes effect or raises without effect. Saving the record with its transitions is one step. A
  request hash is a function passed as a parameter; it is assumed injective only where a lemma says so.
- Transaction references, timestamps, due dates, reasons and metadata are parameters or absent.
- The terms the pipeline saves carry the application id they will be sent with. A pause may hold offers or not; the
  background run never saves any, and resuming a counter-offer without them is an error. General results allow both.
- The rate limiter's clock and the expiry clock of its store are one millisecond clock that never goes back.
- Strings are sequences of characters without Unicode subtleties, and the strip of a name strips spaces.

## Model

| member | source | states |
|---|---|---|
| Emi.ImplementationsAgree | orchestrator/src/utils/offer_generator.py:6-16 | the two EMI implementations give the same answer, errors included, if and only if the tenure is at least one month |
| Emi.OneMonthPayment | agents/disbursment_agent/src/services/disbursement_calculator.py:15-27 | over one month both implementations charge the principal with a twelfth of the annual percentage on top |
| Emi.NoMonths | orchestrator/src/utils/offer_generator.py:6-16 | without a month to pay in, one implementation divides by zero and the other refuses |
| Emi.NegativeTenurePayment | agents/disbursment_agent/src/services/disbursement_calculator.py:24-27 | a negative tenure gives the negative instalment -P / (1 + ... + q^(n-1)) |
| Emi.EmiFormulaIsAnnuity | agents/disbursment_agent/src/services/disbursement_calculator.py:15-27 | for r >= 0 and n >= 1 both branches of the formula succeed and are the annuity payment P q^n / (1 + q + ... + q^(n-1)) |
| Emi.PaymentsAreWorthThePrincipal | agents/disbursment_agent/src/services/disbursement_calculator.py:15-27 | the payment times the present value of n unit payments is the principal |
| Emi.PaymentFallsWithTenure | agents/disbursment_agent/src/services/disbursement_calculator.py:15-27 | a longer tenure never has a larger unrounded payment, and has a smaller one for a positive principal |
| Emi.PaymentRisesWithRate | agents/disbursment_agent/src/services/disbursement_calculator.py:15-27 | a higher rate never has a smaller unrounded payment |
| Emi.RoundedEmiIsMonotone | agents/disbursment_agent/src/services/disbursement_calculator.py:15-27 | the instalment in cents never rises with the tenure and never falls with the rate |
| Emi.OfferTerms | orchestrator/src/utils/offer_generator.py:19-54 | the ids, labels, tenures and rates of the three offers, each with the instalment of its own terms |
| Emi.HigherRateIsHalfMore | orchestrator/src/utils/offer_generator.py:27-27 | the higher rate is half a percent more, in whole hundredths |
| Emi.PayFasterNeedsAYear | orchestrator/src/utils/offer_generator.py:19-54 | "Pay Faster" is the shorter loan with the higher instalment from a base tenure of twelve months on, and the reverse below it |
| Schedule.AmortizeRows | agents/disbursment_agent/src/services/disbursement_calculator.py:49-88 | the loop computes the rows and the interest total of the row recurrence, for every tenure, empty below one month |
| Schedule.GenerateRepaymentSchedule | agents/disbursment_agent/src/services/disbursement_calculator.py:30-102 | the schedule or the division error, for every input |
| Schedule.ExactBalanceClosedForm | agents/disbursment_agent/src/services/disbursement_calculator.py:15-27 | the unrounded recurrence has the closed form P q^k - EMI (1 + ... + q^(k-1)) |
| Schedule.ExactAmortization | agents/disbursment_agent/src/services/disbursement_calculator.py:15-27 | with the unrounded instalment the exact balance has its textbook closed form, is positive before the last month and exactly zero after it |
| Rounding.TiesGoToTheEvenCent | agents/disbursment_agent/src/services/disbursement_calculator.py:27-27 | a tie goes to the even cent |
| Rounding.RoundIsNearest | agents/disbursment_agent/src/services/disbursement_calculator.py:27-27 | rounding moves an amount by half a cent at most |
| Amortization.InterestIsAMonthsShare | agents/disbursment_agent/src/services/disbursement_calculator.py:51-62 | the interest of every row but the last is balance * annual percentage / 1200, to the nearest cent |
| Amortization.FirstInterest | agents/disbursment_agent/src/services/disbursement_calculator.py:51-62 | of the first row of every loan over two months or more: principal * annual percentage / 1200, to the nearest cent |
| Amortization.RowsPayAndLeave | agents/disbursment_agent/src/services/disbursement_calculator.py:59-86 | opening balance, payment, split and closing balance of every row of every schedule, the last row's included |
| Amortization.TotalsOfTheSchedule | agents/disbursment_agent/src/services/disbursement_calculator.py:88-102 | the totals are the sum of the interest column and that plus the principal; the instalment is the unrounded one to the nearest cent |
| Amortization.NoNegativeAmortization | agents/disbursment_agent/src/services/disbursement_calculator.py:52-86 | every row chains to the one before, splits its payment into non-negative interest and principal, and never raises the balance; the last row pays max(EMI, balance) and closes at zero |
| Amortization.RoundingDrift | agents/disbursment_agent/src/services/disbursement_calculator.py:58-89 | after k rows the balance is within ((1+r)^k - 1)/r cents of exact amortization, k cents at a zero rate, through rounding and clamp |
| Amortization.Conservation | agents/disbursment_agent/src/services/disbursement_calculator.py:58-91 | principal components sum to the principal and payments to the total repayment, each plus the clamped overshoot |
| Amortization.SumsAreExactIff | agents/disbursment_agent/src/services/disbursement_calculator.py:70-91 | both sums are exact if and only if the recurrence without clamp is not negative when the last row opens |
| Amortization.LargePaymentsAreExact | agents/disbursment_agent/src/services/disbursement_calculator.py:58-91 | both sums are exact when EMI/(1+r) is at least the drift bound at n-1 |
| Amortization.OneMonthIsExact | agents/disbursment_agent/src/services/disbursement_calculator.py:58-91 | every loan over one month meets that test |
| Amortization.InterestFreeSumsAreExactIff | agents/disbursment_agent/src/services/disbursement_calculator.py:21-22 | at no interest the payments are the stated total if and only if (n-1) instalments do not exceed the principal |
| Amortization.ThreeCentsOverFiveMonths | agents/disbursment_agent/src/services/disbursement_calculator.py:70-91 | an input whose payments exceed the stated total |
| Workflow.ValidateDecision | agents/disbursment_agent/src/workflows/nodes/validate_decision_node.py:15-39 | the error list collected field by field and the status it leads to |
| Workflow.MissingFieldsAreNamed | agents/disbursment_agent/src/workflows/nodes/validate_decision_node.py:15-39 | validation passes exactly if amount, tenure and disbursement are present and not zero and a rate is present; else the error names exactly the offending fields |
| Workflow.DeriveTransitionHistory | agents/disbursment_agent/src/services/disbursement_transitions.py:4-68 | the history built by conditional appends is the trail function of the final state |
| Workflow.ReceiptTellsTheOutcome | agents/disbursment_agent/src/workflows/decision_flow.py:35-59 | in every run that ends, status, receipt, fee, transaction, reconciliation flag and schedule agree with each other and with whether the request pays |
| Workflow.GatewayRefusesIff | agents/disbursment_agent/src/services/banking_gateway.py:20-66 | the gateway refuses exactly what is not a positive amount, and settles later from 5000000 cents on |
| Workflow.StatusesAlongTheRoad | agents/disbursment_agent/src/workflows/decision_flow.py:20-79 | PENDING, then VALIDATED, then SCHEDULED on the way to the transfer |
| Workflow.LargePaymentsSettleLater | agents/disbursment_agent/src/services/banking_gateway.py:20-66 | up to 4999999 cents a payment is DISBURSED, from 5000000 on it is TRANSFER_PENDING and to be reconciled, below zero it FAILED at the gateway |
| Workflow.ReceiptShowsTheSchedule | agents/disbursment_agent/src/services/receipt_builder.py:4-35 | every figure on a receipt is the request's own or that of its schedule, and zero without one |
| Workflow.TrailShape | agents/disbursment_agent/src/services/disbursement_transitions.py:4-68 | for every finished state, when the trail is linked and which statuses it lists |
| Workflow.OtherTrails | agents/disbursment_agent/src/services/disbursement_transitions.py:4-68 | the trails of states without a schedule and of unfinished ones, step by step |
| Workflow.AuditTrailIsAChain | agents/disbursment_agent/src/services/disbursement_transitions.py:4-68 | with a tenure of at least one month the trail is a linked chain from PENDING along the request's road to the receipt's status |
| Workflow.TrailBreaksIff | agents/disbursment_agent/src/workflows/nodes/validate_decision_node.py:15-39 | the trail is linked unless the tenure is negative and money leaves |
| Workflow.NegativeTenuresBreakTheTrail | agents/disbursment_agent/src/workflows/nodes/validate_decision_node.py:15-39 | every interest-free request that pays over a negative tenure ends with a broken trail |
| Workflow.LoansNeverRaise | agents/disbursment_agent/src/workflows/nodes/generate_schedule_node.py:14-40 | with tenure >= 1 and rate >= 0 no node raises |
| Idempotency.IdempotencyRepository.Get | agents/disbursment_agent/src/repositories/idempotency_repository.py:11-16 | the row under the key, or none |
| Idempotency.IdempotencyRepository.Create | agents/disbursment_agent/src/repositories/idempotency_repository.py:18-26 | one insert per key: PROCESSING under the hash, or an integrity error that changes nothing |
| Idempotency.IdempotencyRepository.MarkCompleted | agents/disbursment_agent/src/repositories/idempotency_repository.py:28-39 | the row becomes COMPLETED with the receipt, hash kept; no row, no effect |
| Idempotency.IdempotencyRepository.MarkFailed | agents/disbursment_agent/src/repositories/idempotency_repository.py:41-51 | the row becomes FAILED, hash and payload kept; no row, no effect |
| Protocol.StepKeepsInv | agents/disbursment_agent/src/services/orchestrator.py:45-97 | every step of every request, raise or crash keeps the invariant on rows, owners, attempts and transfers |
| Protocol.RunKeepsInv | agents/disbursment_agent/src/services/orchestrator.py:45-97 | so does every interleaving |
| MoneySafety.AtMostOneTransfer | agents/disbursment_agent/src/services/orchestrator.py:45-97 | in every run no application is paid twice, and what is paid is the amount of a submitted request whose hash the row stores, whose terms passed validation and whose schedule was made |
| MoneySafety.RepliesAgree | agents/disbursment_agent/src/services/idempotency.py:7-20 | all successful replies for an application carry the receipt its completed row stores, for requests with the stored hash; the receipt names a transaction exactly when money left |
| MoneySafety.RowsMoveForward | agents/disbursment_agent/src/repositories/idempotency_repository.py:18-51 | a row only moves from absent to PROCESSING to COMPLETED or FAILED, under one hash |
| MoneySafety.SettledForGood | agents/disbursment_agent/src/services/orchestrator.py:45-97 | once COMPLETED or FAILED a row never changes, no money leaves for it, and a FAILED one is never answered |
| MoneySafety.PaidYetFailedIff | agents/disbursment_agent/src/services/orchestrator.py:82-97 | some run ends with a request paid and its row FAILED if and only if the request pays and has a schedule |
| Prospects.PaysSoon | agents/disbursment_agent/src/services/orchestrator.py:65-82 | an attempt before its transfer, on terms that pay, with its key in hand or free, pays within five steps of its own |
| Prospects.StillPaysIff | agents/disbursment_agent/src/services/orchestrator.py:45-97 | an unpaid attempt is paid in some continuation if and only if it stands so, whatever the others do |
| Execution.Invoke | agents/disbursment_agent/src/workflows/decision_flow.py:20-79 | running the graph node by node is a run of the machine and computes the graph's result; when it ends, the bank has paid exactly if the request pays |
| Execution.SaveAndComplete | agents/disbursment_agent/src/services/orchestrator.py:82-93 | record and transitions first, then the completed row with the receipt; a failure leaves the row as it was |
| Execution.ExecuteOwned | agents/disbursment_agent/src/services/orchestrator.py:79-97 | the row ends COMPLETED with the receipt replied, or FAILED, or PROCESSING only if the FAILED mark raised |
| Execution.ExecuteFresh | agents/disbursment_agent/src/services/orchestrator.py:65-97 | a taken key or a raising insert changes nothing and ends the request; a new row is worked on |
| Execution.Handle | agents/disbursment_agent/src/services/orchestrator.py:45-97 | a taken key is answered by its row: another hash conflicts, a stored receipt is replayed, PROCESSING is in progress, anything else is a duplicate key; table and bank stay |
| Execution.ExecuteDisbursement | agents/disbursment_agent/src/services/orchestrator.py:30-109 | whatever raises, table, bank and answer are those of steps of this attempt alone; by the row for a taken key; for a new one, when nothing raises, the receipt is replied and stored and the bank has paid exactly if the request pays |
| Orchestrator.PipelineStateStore.SaveState | orchestrator/src/store/pipeline_state_store.py:8-9 | the state replaces what was saved for the application |
| Orchestrator.PipelineStateStore.GetState | orchestrator/src/store/pipeline_state_store.py:12-13 | the saved state, or none |
| Orchestrator.PipelineStateStore.ClearState | orchestrator/src/store/pipeline_state_store.py:16-17 | nothing is saved for the application, nothing else changes |
| Orchestrator.AgentRuns | orchestrator/src/services/pipeline_service.py:393-437 | whatever the orchestrator does, the agent's state is reached by a run of the disbursement machine |
| Orchestrator.OnlyAuthorizedRequests | orchestrator/src/services/pipeline_service.py:296-383 | every request sent is that of a saved pause, as approved or with one of its offers chosen |
| Orchestrator.OnlyApprovalsAreSent | orchestrator/src/services/pipeline_service.py:252-267 | where every pause is one the pipeline saves, no chosen counter-offer is ever sent: every attempt is for approved terms |
| Orchestrator.EveryPaymentIsAuthorizedAndUnique | orchestrator/src/services/pipeline_service.py:296-391 | under concurrent resumes, cancels, timeouts, crashes and errors each application is paid at most once, and only the net amount of saved terms |
| Orchestrator.BodiesComeFromReplies | orchestrator/src/services/pipeline_service.py:411-416 | what a resume answers is what its own attempt ended with |
| Orchestrator.DisbursedAnswerIsTrueIff | orchestrator/src/services/pipeline_service.py:358-383 | a DISBURSED answer with a receipt is true if and only if the request stored under the key pays, the resume's own under an injective hash; the receipt then names a transaction |
| Orchestrator.ClearDropsWhatWasReadIff | orchestrator/src/services/pipeline_service.py:296-383 | a resume that clears drops whatever is paused then: the pause it has read if and only if no other state was saved since it looked |
| Cancellation.PaidAgainIff | orchestrator/src/services/pipeline_service.py:296-391 | in every history, money can still leave on an application's behalf before its next pause if and only if an attempt under way can be paid or the pause can be resumed into one |
| Cancellation.OnlyApprovalsArePaidIff | orchestrator/src/services/pipeline_service.py:219-391 | where every pause is one the pipeline saves, that is an attempt under way or an approval whose terms pay under a free key |
| Cancellation.IdleStaysUnpaid | orchestrator/src/services/pipeline_service.py:385-391 | where that is not so, it stays so, and nothing is paid until the application is paused again |
| Cancellation.CancelStopsPaymentsIff | orchestrator/src/services/pipeline_service.py:385-391 | a cancel stops all payments if and only if no attempt under way can be paid |
| Cancellation.CancelDoesNotRecall | orchestrator/src/services/pipeline_service.py:358-391 | for every approved application that pays there is a history in which it is cancelled while paused and the money still leaves |
| Cancellation.PromiseComesTrueIff | orchestrator/src/services/pipeline_service.py:411-447 | the promise made with a 202 is or can become true if and only if the owner of the key is paid or can be |
| PaidPromise.PaidAndTold | orchestrator/src/services/pipeline_service.py:358-383 | for every approval whose terms pay there is a run in which the client is told DISBURSED with the receipt of a payment that has left |
| UnpaidPromise.PromisedButNeverPaid | orchestrator/src/services/pipeline_service.py:358-447 | for every approved application there is a run in which a 202 is passed on as DISBURSED and drops the pause, with nothing paid, then or later |
| UnpaidPromise.ANewerPauseIsLost | orchestrator/src/services/pipeline_service.py:358-383 | for every approved application there is a run in which a resume drops a newer pause it has not read |
| Resumption.FindSelected | orchestrator/src/services/pipeline_service.py:309-315 | the first option with the id, or none if and only if no option has it |
| Resumption.BuildPayload | orchestrator/src/services/pipeline_service.py:302-347 | the saved terms as approved, or with principal, tenure and rate of the first offer with the id and the fee kept back; an error exactly for a wrong phase, unreadable offers or an unknown id |
| Resumption.Resume | orchestrator/src/services/pipeline_service.py:296-383 | a run of the world: one attempt exactly when the pause asks for one; a receipt or a request in progress is answered DISBURSED and drops the pause, every other refusal and a lost response is an error and keeps it |
| Resumption.CancelPendingApplication | orchestrator/src/services/pipeline_service.py:385-391 | the pause is forgotten, nothing else changes |
| ProgressBroker.EventQueue.PutNowait | orchestrator/src/api/routes.py:73-74 | the event goes behind what is waiting |
| ProgressBroker.EventQueue.Get | orchestrator/src/api/routes.py:219-221 | the oldest waiting event leaves the queue |
| ProgressBroker.ProgressBroker.FindExpired | orchestrator/src/api/routes.py:43-49 | the applications whose clock ran out and that nobody listens to |
| ProgressBroker.ProgressBroker.Drop | orchestrator/src/api/routes.py:51-53 | their buffers and clocks go, subscribers stay |
| ProgressBroker.ProgressBroker.CleanupExpired | orchestrator/src/api/routes.py:42-53 | the new state is the cleaned old one |
| ProgressBroker.ProgressBroker.Publish | orchestrator/src/api/routes.py:55-74 | expiry, bounded append and clock as specified, and the event on every subscriber's queue exactly once |
| ProgressBroker.ProgressBroker.Subscribe | orchestrator/src/api/routes.py:76-84 | a fresh empty queue, registered, and the buffer as it then is |
| ProgressBroker.ProgressBroker.Unsubscribe | orchestrator/src/api/routes.py:86-93 | the queue leaves, an empty set is dropped, then expiry |
| EventStream.SendUpdates | orchestrator/src/api/routes.py:212-228 | the generator sends history and queue through the first terminal event, and ends and unsubscribes exactly if there is one |
| Streams.RunKeepsInv | orchestrator/src/api/routes.py:42-93 | in every run buffers are the newest available events, clocks run for terminal ends, subscriber sets are those of open streams, and every stream is a segment of the log |
| StreamGuarantees.StreamsAreContiguous | orchestrator/src/api/routes.py:42-84 | history then live events are one contiguous segment of the log, reaching its end while the stream is open |
| StreamGuarantees.HistoryIsTheNewest | orchestrator/src/api/routes.py:76-84 | a history is the last min(max_events, available) of the available events |
| StreamGuarantees.BuffersAreBounded | orchestrator/src/api/routes.py:60-69 | buffers never exceed the maximum, no subscriber set is empty, a clock shows the last publication |
| StreamGuarantees.ClockTracksBuffersIff | orchestrator/src/api/routes.py:60-69 | clocks run for exactly the buffers that end with a terminal event, if and only if buffers hold at least one event |
| StreamGuarantees.EvictionIff | orchestrator/src/api/routes.py:42-53 | eviction strikes exactly when the last event is terminal, at least ttl old, and no stream is open |
| StreamGuarantees.OnlyExpiredAreDropped | orchestrator/src/api/routes.py:42-93 | no operation loses the available events of an application that is not expired |
| StreamGuarantees.ExpiredAreDropped | orchestrator/src/api/routes.py:42-93 | every publication, subscription and unsubscription drops all that has expired by then |
| StreamGuarantees.StreamsShowTheFirstRun | orchestrator/src/api/routes.py:212-228 | a client is sent its segment through the first terminal event, a prefix until then |
| StreamGuarantees.Drains | orchestrator/src/api/routes.py:212-228 | a stream whose segment holds a terminal event stops within as many resumptions as events are left, plus one |
| StreamGuarantees.StreamsEnd | orchestrator/src/api/routes.py:212-228 | once the application's last event is terminal, every open stream that was handed an event ends |
| StreamGuarantees.WaitsOnlyForATerminal | orchestrator/src/api/routes.py:219-226 | a stream that only sends heartbeats has sent everything and seen no terminal event |
| StreamGuarantees.LaterRunsAreHidden | orchestrator/src/api/routes.py:214-217 | a terminal event in the history hides everything live |
| StreamGuarantees.LiveEventsAreShownIff | orchestrator/src/api/routes.py:212-228 | of a stream that receives live events, some are shown if and only if its history holds no terminal event |
| StreamGuarantees.ReceivesWhatFollows | orchestrator/src/api/routes.py:55-84 | an open stream has received as many events as were published for its application since it opened |
| StreamGuarantees.HandedAnEventIff | orchestrator/src/api/routes.py:55-84 | an open stream holds an event if and only if one was published since it opened, or one was available then and buffers have room |
| PipelineRun.ExecuteUntilDecision | orchestrator/src/services/pipeline_service.py:75-294 | the events, the exception and the saved pause for every way the agents can answer |
| PipelineRun.RunPipeline | orchestrator/src/api/routes.py:110-133 | the run's events with PIPELINE_FAILED exactly after an exception |
| PipelineRun.EarlyRunsSay | orchestrator/src/services/pipeline_service.py:75-165 | the events of every run that stops before underwriting is asked, one by one |
| PipelineRun.UnderwrittenRunsSay | orchestrator/src/services/pipeline_service.py:165-294 | how every other run goes on, decision by decision |
| PipelineRun.ApprovalsAreAnnouncedIff | orchestrator/src/services/pipeline_service.py:218-239 | APPLICATION_APPROVED is announced exactly when underwriting is asked and approves |
| PipelineRun.DeclinesAreAnnouncedIff | orchestrator/src/services/pipeline_service.py:194-216 | APPLICATION_DECLINED exactly when it declines |
| PipelineRun.CounterOffersAreAnnouncedIff | orchestrator/src/services/pipeline_service.py:252-281 | COUNTER_OFFER_PENDING exactly when it makes a counter-offer |
| PipelineRun.KycFailuresAreAnnouncedIff | orchestrator/src/services/pipeline_service.py:75-140 | KYC_FAILED exactly when KYC is asked and does not pass |
| PipelineRun.UnderwritingFailuresAreAnnouncedIff | orchestrator/src/services/pipeline_service.py:140-194 | UNDERWRITING_FAILED exactly when the underwriting call raises |
| PipelineRun.PipelineFailuresAreAnnouncedIff | orchestrator/src/api/routes.py:110-133 | PIPELINE_FAILED exactly when something raised |
| PipelineRun.FlagsAreByName | orchestrator/src/services/pipeline_service.py:75-294 | which events end a stream |
| PipelineRun.SavedPausesResume | orchestrator/src/services/pipeline_service.py:219-267 | a saved approval is confirmed into its very terms, a saved counter-offer cannot be resumed |
| PipelineRun.CoursesAreWellShaped | orchestrator/src/services/pipeline_service.py:75-294 | progress, then at most one terminal event, without which it raises; it raises after one exactly in the cases listed |
| PipelineRun.FinishedRunsEndTerminal | orchestrator/src/api/routes.py:110-133 | every run that is not cancelled ends with a terminal event, and which of its events a client sees |
| PipelineRun.FinishedApplicationsEndTheirStreams | orchestrator/src/api/routes.py:110-228 | in every run of the broker fed by finished runs, an open stream ends if an event was published since it opened or was available then |
| PipelineRun.OpenStreamReceives | orchestrator/src/api/routes.py:55-74 | what is published reaches every open stream of the application, once and at the end |
| PipelineRun.ALaterRunIsHidden | orchestrator/src/api/routes.py:165-228 | a run whose open stream has received an event of the run under way and shows the two events of the earlier one only |
| PipelineRun.RestartedIsFedByRuns | orchestrator/src/api/routes.py:165-196 | what is published in that run is what a failed run and the next acceptance publish |
| Mrz.MrzChecksum | agents/intake_agent/src/domain/document_validation/aws_passport_validation.py:195-214 | the loop computes the weighted sum modulo ten |
| Mrz.CharValues | agents/intake_agent/src/domain/document_validation/aws_passport_validation.py:203-210 | digits count as themselves, letters from ten on, the filler nothing |
| Mrz.WeightsRepeat | agents/intake_agent/src/domain/document_validation/aws_passport_validation.py:197-214 | the weights 7, 3, 1 repeat |
| Mrz.SubstitutionIsNoticedIff | agents/intake_agent/src/domain/document_validation/aws_passport_validation.py:195-214 | one misread character changes the digit if and only if the values differ modulo ten |
| Mrz.SwapIsNoticedIff | agents/intake_agent/src/domain/document_validation/aws_passport_validation.py:195-214 | swapped neighbours change the digit if and only if their values differ modulo five |
| Mrz.NormalizeMrzLine | agents/intake_agent/src/domain/document_validation/aws_passport_validation.py:229-248 | the loop terminates on every line and computes the specified 44 characters |
| Mrz.LinesAreFitted | agents/intake_agent/src/domain/document_validation/aws_passport_validation.py:229-248 | a short line is filled up on the right, a long one without fillers is cut there |
| Mrz.NormalizationKeepsTheText | agents/intake_agent/src/domain/document_validation/aws_passport_validation.py:229-248 | the characters that are not fillers survive in order, up to 44 of them |
| Mrz.NormalizationIsIdempotent | agents/intake_agent/src/domain/document_validation/aws_passport_validation.py:229-248 | normalizing twice changes nothing |
| Mrz.SqueezedKeepsTheLeft | agents/intake_agent/src/domain/document_validation/aws_passport_validation.py:237-243 | fillers are taken from the right: up to some place the line is untouched, behind it only fillers are gone |
| Mrz.TrailingFillersAreRepaired | agents/intake_agent/src/domain/document_validation/aws_passport_validation.py:237-243 | a full line lengthened by fillers on the right is restored |
| Passport.ParseMrz | agents/intake_agent/src/domain/document_validation/aws_passport_validation.py:253-323 | the candidate loop and the parse of its last two lines |
| Passport.CandidatesAreThese | agents/intake_agent/src/domain/document_validation/aws_passport_validation.py:257-269 | the lines taken are those of 44 to 46 digits, capitals and fillers once spaces are gone |
| Passport.ParseFailsIff | agents/intake_agent/src/domain/document_validation/aws_passport_validation.py:273-309 | the parse fails exactly for want of two such lines or of two readable dates |
| Passport.CalendarIsGregorian | agents/intake_agent/src/domain/document_validation/aws_passport_validation.py:227-227 | the days there are, month by month, leap years included |
| Passport.DatesAreRead | agents/intake_agent/src/domain/document_validation/aws_passport_validation.py:215-227 | six digits are the day they name, in 1931 to 2030, if there is one; anything else raises |
| Passport.StripTrims | agents/intake_agent/src/domain/document_validation/aws_passport_validation.py:303-304 | stripping takes the spaces off both ends and nothing else |
| Passport.SplitCutsAtDoubleSpaces | agents/intake_agent/src/domain/document_validation/aws_passport_validation.py:301-301 | splitting cuts at double spaces, leftmost first |
| Passport.SplitJoins | agents/intake_agent/src/domain/document_validation/aws_passport_validation.py:301-301 | and loses nothing |
| Passport.NamesComeBack | agents/intake_agent/src/domain/document_validation/aws_passport_validation.py:299-304 | a printed name field parses to its surname and given names, whatever the padding |
| Passport.DateComesBackIff | agents/intake_agent/src/domain/document_validation/aws_passport_validation.py:215-227 | a printed date parses to itself if and only if its year is one of 1931 to 2030 |
| Passport.ParseInvertsLayout | agents/intake_agent/src/domain/document_validation/aws_passport_validation.py:253-323 | if the last two candidates are the TD3 lines of a document, every field comes back if and only if both years are readable |
| Passport.PrintedPassportIsRead | agents/intake_agent/src/domain/document_validation/aws_passport_validation.py:253-323 | the two printed lines, with their check digits, behind any other text, are read back |
| RateLimiter.RateLimiter.IsAllowed | agents/intake_agent/src/utils/rate_limit/rate_limiter.py:20-33 | the store after prune, add and expire, and the verdict on what was counted |
| RateLimiter.CountsTheWindow | agents/intake_agent/src/utils/rate_limit/rate_limiter.py:20-33 | in milliseconds: a call of the last window - 1 seconds is counted, one of a window ago is not |
| RateLimiter.RecordedIsTheWindow | agents/intake_agent/src/utils/rate_limit/rate_limiter.py:20-33 | what one call counts is exactly the distinct call seconds of the window in the full log |
| RateLimiter.CountedIsTheLogs | agents/intake_agent/src/utils/rate_limit/rate_limiter.py:20-33 | so it is in every run: expiry loses nothing pruning would keep |
| RateLimiter.AllowedSecondsAreLimited | agents/intake_agent/src/utils/rate_limit/rate_limiter.py:20-33 | over every run the allowed calls in any window-long interval fall in at most `limit` distinct seconds |
| RateLimiter.SameSecondSameVerdict | agents/intake_agent/src/utils/rate_limit/rate_limiter.py:25-33 | a call repeated within its second is judged on the same seconds |
| RateLimiter.BurstIsAllowed | agents/intake_agent/src/utils/rate_limit/rate_limiter.py:25-33 | any number of calls in one second are all allowed |
| RateLimiter.LimitsCallsIff | agents/intake_agent/src/utils/rate_limit/rate_limiter.py:20-33 | allowed calls stay within the limit in every window of every run if and only if limit or window is below one |
| RateLimiter.SpacedCallsAreLimited | agents/intake_agent/src/utils/rate_limit/rate_limiter.py:20-33 | they do in every run in which the client's calls come in pairwise different seconds |
| StableSort.SortSorts | agents/intake_agent/src/domain/output/canonical_builder.py:54-54 | `sorted` puts keys in order |
| StableSort.SortPermutes | agents/intake_agent/src/domain/output/canonical_builder.py:54-54 | and keeps every element as often as it was |
| StableSort.SortIsStable | agents/intake_agent/src/domain/output/canonical_builder.py:54-54 | and keeps the order of equal keys |
| StableSort.StableOrderIsUnique | agents/intake_agent/src/domain/output/canonical_builder.py:54-54 | which leaves one result: any sorted and stable arrangement is this one |
| StableSort.OrderNeverShowsIff | agents/intake_agent/src/domain/output/canonical_builder.py:32-67 | the input order never shows in a sorted and translated list if and only if tied elements translate alike |
| CanonicalJson.CanonicalForm | agents/intake_agent/src/domain/output/canonical_builder.py:19-29 | two nested values have one sorted form if and only if they are equal up to key order at every depth |
| CanonicalJson.NamesAreInOrder | agents/intake_agent/src/domain/output/canonical_builder.py:24-25 | the keys of every output object come in code point order |
| StableSort.FirstDifferenceDecides | agents/intake_agent/src/domain/output/canonical_builder.py:25-25 | code point order: the first difference decides, and a text comes before what extends it |
| CanonicalJson.CanonicalIsEqualAndSettled | agents/intake_agent/src/domain/output/canonical_builder.py:19-29 | the sorted form equals the input, lookup by lookup, and sorting it again changes nothing |
| CanonicalOutput.ApplicantsAreDeterministicIff | agents/intake_agent/src/domain/output/canonical_builder.py:32-54 | the applicants come out the same from every order and every memory layout if and only if applicants with one key are equal |
| CanonicalOutput.ApplicantsAreInOrder | agents/intake_agent/src/domain/output/canonical_builder.py:32-54 | the applicants come out with ids first, then roles, then the rest, ids and roles in code point order, and are the forms of what was passed |
| CanonicalOutput.NamelessAreInAddressOrder | agents/intake_agent/src/domain/output/canonical_builder.py:51-52 | those with neither come in order of address |
| CanonicalOutput.AddressesShow | agents/intake_agent/src/domain/output/canonical_builder.py:51-52 | two different applicants with neither id nor role have no determined order |
| CanonicalOutput.EvidenceIsDeterministicIff | agents/intake_agent/src/domain/output/canonical_builder.py:57-67 | the evidence comes out the same from every order if and only if items on one path are equal |
| CanonicalOutput.EvidenceIsInPathOrder | agents/intake_agent/src/domain/output/canonical_builder.py:57-67 | the evidence comes out in code point order of path, an absent one read as empty, and is the forms of what was passed |
| CanonicalOutput.AssembleCanonicalOutput | agents/intake_agent/src/domain/output/canonical_builder.py:114-143 | under each of the five names the sorted form of what was passed, in order of name; the closing sort reaches no deeper |
| CanonicalOutput.EqualInputsGetOneOutput | agents/intake_agent/src/domain/output/canonical_builder.py:70-143 | inputs equal up to key order, list order and memory layout get one output, when keys and paths tell the items apart |

## Left out

- Schedule.AmortizeRows: due dates, 30 days apart from the first, are not part of a row.
- Emi.PayFasterNeedsAYear: nothing is claimed of the instalment of the offer called "Lower EMI", whose higher rate can outweigh its longer tenure; the offers' remaining display fields are absent.
- Workflow.DeriveTransitionHistory: transitions carry from and to statuses; reasons and metadata are absent.
- Schedule.GenerateRepaymentSchedule: the first due date is absent.
- Idempotency.IdempotencyRepository.MarkFailed: the error message stored with the row is absent.
- Idempotency.IdempotencyRepository.MarkCompleted: so is its reset.
- Execution.SaveAndComplete: saving the record and each transition is one step that leaves row and bank alone; which of them were saved before an error is not modelled.
- Resumption.BuildPayload: a saved counter-offer is a list of offers or none; the object the code saves is none.
- Resumption.Resume: progress events are absent, because the routes pass no callback to a resume and so nothing is published.
- MoneySafety.AtMostOneTransfer: safety only. The gateway of the code is a stub that always answers; a bank that answers late or not at all is not modelled.
- PipelineRun.ExecuteUntilDecision: events carry a name and whether they are terminal; stages, messages and details are absent. Normalizing the underwriting response, mapping it and computing offers are one decision value, and each is allowed to raise.
- PipelineRun.RunPipeline: a cancelled run publishes no event in the code and is not part of the model.
- StreamGuarantees.StreamsEnd: it is said of streams that were handed at least one event; `HandedAnEventIff` says exactly which are.
- ProgressBroker.ProgressBroker.Publish: the code puts events on the queues after it releases the lock; as nothing suspends in between, the whole call is one step.
- EventStream.SendUpdates: heartbeats are absent, and the method returns where the generator would wait for the next event.
- Passport.ParseMrz: a date that raises and a record that cannot be read are one result each; extra records, confidence and the recognition of passport pages are absent.
- RateLimiter.RecordedIsTheWindow: the members of the set are the seconds themselves; failures of the store are absent.
- CanonicalOutput.EvidenceIsDeterministicIff: a path is text or absent; comparing it with another type raises in Python.
- CanonicalOutput.ApplicantsAreDeterministicIff: ids and roles are text or absent; numbers would be compared as numbers and a mixture raises.
- Floating point: rounding errors of binary doubles below the cent, and the cases in which they tip a rounding.
- The routing of LangGraph beyond the fixed edges of the disbursement graph, checkpoints, and the decisioning agent's prompts and parsers.
- The intake idempotency guard and the callback ledger: an insert under a primary key and a compare-and-set, with less state than the disbursement protocol.
- HTTP clients, sessions, migrations, Redis and Postgres drivers, telemetry, storage and image processing: only the semantics of their calls appear, where a step needs them.
- KYC, the reviewing agent, validators, mappers, serializers and the data masker: field-by-field code with no property that spans operations.
