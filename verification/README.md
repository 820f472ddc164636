# EduTraderAI: verified model

This project models the deterministic engines of EduTraderAI, a paper-trading
platform, and proves what they guarantee over every input, every run and every
interleaving.

- **Qualification protocol** (`QualificationContracts`, `StateMachine`, `EventLaw`,
  `RunChain`, `QualificationService`, `ServiceLaw`, `Interleaving`, `EventHistory`,
  `IdempotencyKeys`, `Evidence`). A registry of 35 guarded transitions, the service
  that drives it over a revision-checked store, and its concurrent callers as
  interleaved atomic steps in which every port may fail before or after its write.
  An independent law by event says which commands are accepted and what they do, and
  every saved step obeys it. Saved versions form one chain that begins with a start,
  the broker is asked at most once, behind the whole path of prechecks and approval,
  a qualified run has the order outcome it qualifies from on record, evidence is
  ahead of state by at most one revision, and replays can be erased from any log.
- **Planning and risk** (`Money`, `TradePolicies`, `TradePlanner`,
  `ExecutionParity`, `PreviewParityModel`). The ordered policy planner refines two
  older pieces of code: the execution profile agrees with the central risk
  manager, the preview profile with the legacy buy preview, although one side
  compares floor quotients and the other products. Under every policy set a plan
  orders exactly its capped size.
- **Portfolio, pipeline and backtest** (`Accounts`, `PortfolioModel`, `Pipeline`,
  `Drawdown`, `Backtest`). The account is the fold of its own ledger; trading
  through the pipeline keeps exposure, position count and equity within their
  limits over any run, and once past the daily loss the account never changes again;
  the drawdown pass equals its definition over all pairs;
  the backtest is total.
- **Global Rotation** (`Rotation`, `Allocation`, `Scan`). Sizing is antitone in
  committed capital, and the ranked allocation conserves and bounds it.
- **Concurrent services** (`SubmitTrade`, `EventDelivery`). Reservations of
  trade requests, and bounded, counted event delivery, under any interleaving.
- **Congressional scoring** (`Congressional`). Invariant under reordering and
  future disclosures, and symmetric between purchases and sales.

## How to read it

Source code that updates state in place is a class or a method proved against a
specification function; the theorems are about those functions. Concurrency is
a state machine whose steps are the source's critical sections and port calls.
Money is exact (`real`). An exception the source raises is an error value, or,
where it is proved impossible, an assertion at the call that could raise it.

Five promises hold only under a condition, and the model says which, for all
inputs and in both directions:

- The broker is asked at most once. The requests of a run are exactly the
  restarts that reopen a request, plus one unless the last request has been
  reopened (`RunChain.SendsCounted`); after a request, a restart to a state lets
  one more through if and only if that state lies before the request
  (`RunChain.RestartLetsSendAgain`). The restart row accepts whatever recovered
  state its caller names.
- An idempotency key changes a run at most once. This fails without any failure
  when two calls under the key overlap: the second reads the prior command before
  the first has recorded, both are accepted, and one record overwrites the other
  (`IdempotencyKeys.OverlapWritesAgain`, `OverlapWritesTwice`). Exactly: a new
  call can write under a key if and only if no record of it exists when the call
  starts (`IdempotencyKeys.NewCallExactly`), a call under way if and only if the
  version it read is current and, until it has read the prior command, no record
  exists and it would be accepted (`IdempotencyKeys.CanSaveExactly`). In every
  interleaving the versions written are counted exactly
  (`IdempotencyKeys.KeyCounted`); with calls that do not overlap and no lost record
  there is at most one (`IdempotencyKeys.AtMostOneVersion`). That no command is
  applied twice needs no condition (`Interleaving.NoCommandTwice`).
- The broker takes at most one order for a request. The orders taken are exactly
  those forgotten because the broker or the publisher raised after one was taken,
  plus one if a call returned submitted (`SubmitTrade.OrdersWhenAllReturned`); the
  next call can have an order taken if and only if the request is neither recorded
  nor in flight (`SubmitTrade.TakenAgainExactly`), so every forgotten order can be
  followed by another (`SubmitTrade.LostOrderIsTakenAgain`).
- Drawdown metrics always validate: exactly for series in which some equity is
  not negative and no equity is negative after a positive one
  (`Drawdown.Calculate`); series without negative equities are among them.
- Every congressional signal passes its range check: if and only if the maximum
  adjustment is at most 15 (`Congressional.AcceptsEveryScoreExactly`).

Hypotheses about histories are inhabited: `RunChain.StepFor` makes a saved step
from any command whose row fits, and `Interleaving.UninterruptedCall` and
`SubmitTrade.AloneIsReached` tie the interleaved models to the sequential code.

Where the repository's documents and its code differ, the model follows the
code. The transition table of the design allows a failed precheck to be recorded
as FAILED or INCONCLUSIVE; row 3 records INCONCLUSIVE. The table sends some
out-of-order broker events to reconciliation; the code rejects them.

## Model

| member | source | states |
|---|---|---|
| `StateMachine.Row` | volcanoes/application/qualification/state_machine.py:415-860 | The 35 registry rows; each one, as an edge of a graph, lowers the rank (the failed precheck apart), records the result that goes with its destination, and only rows 6, 9 and 10 carry approval, submission start and the broker request. Where each row may stand, what it demands and where it leads is fixed by `EventLaw.RowsObey`. |
| `StateMachine.CandidateMembers` | volcanoes/application/qualification/state_machine.py:227-257 | The candidate rows of a state and event are exactly the fitting rows of the registry. |
| `StateMachine.MatchMembers` | volcanoes/application/qualification/state_machine.py:238-242 | The matches are exactly the candidates whose guards are all satisfied. |
| `StateMachine.PickOnly` | volcanoes/application/qualification/state_machine.py:243-256 | A lookup yields a match exactly when that match is the only one; several matches or several unmatched candidates are errors. |
| `StateMachine.FindTransitionFinds` | volcanoes/application/qualification/state_machine.py:227-276 | Lookup returns a row with satisfied guards exactly when that row, and no other, applies. |
| `StateMachine.AcceptedExactlyWhen` | volcanoes/application/qualification/state_machine.py:59-137 | For every run, event and context with a fresh key: accepted by row n if and only if the revision is current, the run is not terminal and row n alone applies; the decision then carries that row's destination, result, effects and one evidence intent of the next revision. |
| `StateMachine.RowIsDetermined` | volcanoes/application/qualification/state_machine.py:415-860 | For every state and event at most one row fits, except that a reconciliation outcome has three; an independent table names the row. |
| `StateMachine.ReplayIsInert` | volcanoes/application/qualification/state_machine.py:200-224 | A repeated key with the same payload is answered without effects or state change, repeating the row, result, retry class and evidence of the first decision; with another payload it is a conflict. |
| `EventLaw.RowsObey` | volcanoes/application/qualification/state_machine.py:415-860 | Every row, in every state where it fits, does what an independent table by event says: source states, guards demanded, destination, result, side effect and retry class. |
| `EventLaw.LegalIffRow` | volcanoes/application/qualification/state_machine.py:227-285 | An event has a row in a state exactly when the table calls it legal there, and then that one row. |
| `EventLaw.CommandDecidedByLaw` | volcanoes/application/qualification/state_machine.py:59-137 | For every run and first-use command other than a reconciliation outcome: accepted if and only if it is current, the run open, the event legal and its demanded guards present; every rejection is the first of these reasons, with exactly the missing guards; an acceptance carries exactly the state, result, effect, retry class and evidence of the table. |
| `EventLaw.ReconciliationDecidedByLaw` | volcanoes/application/qualification/state_machine.py:721-757 | A reconciliation outcome is accepted if and only if exactly one of the three outcomes is proved by its guards, which is then where it leads; two proofs are ambiguous, none decides nothing. |
| `EventHistory.StepObeys` | volcanoes/application/qualification/state_machine.py:59-152 | Every saved step did what its event allows, vouched for all it demands, and a reconciliation proved the one outcome it led to. |
| `EventHistory.ArrivalByLaw` | volcanoes/application/qualification/state_machine.py:415-860 | Restarts aside, a saved step makes a run Filled if and only if it is a broker fill report, Expired if and only if a broker expiry, Rejected if and only if an operator or broker rejection or a reconciliation that proves it, and so on for every state; each under its guards. |
| `EventHistory.SavedByLaw` | volcanoes/application/qualification/service.py:254-330 | In every interleaving, under any port failures, every saved step obeys that law. |
| `EventHistory.ChainIdentity` | volcanoes/application/qualification/service.py:355-362 | Every version of a run keeps the run, scenario and correlation identifiers of its first command. |
| `EventHistory.CameFrom` | volcanoes/application/qualification/state_machine.py:415-860 | In a faithful history the state a step starts in was reached by an earlier saved step under the law, with only restarts in between. |
| `EventHistory.ReadyOnRecord` | volcanoes/application/qualification/state_machine.py:428-445 | A run that stands ready for approval has a saved PRECHECKS_PASSED under all five guards. |
| `EventHistory.WholePathBeforeSend` | volcanoes/application/qualification/state_machine.py:416-549 | A broker request has behind it, in this order, a saved start, passed prechecks, an approval request, an approval and a submission start, each under all its guards. |
| `EventHistory.QualifiedOnRecord` | volcanoes/application/qualification/state_machine.py:574-796 | A qualified run met its criteria in the scenario that asks for its order outcome, and that outcome was saved before: from Filled, a fill report under full fill evidence; from Cancelled, Rejected and Acknowledged likewise. |
| `RunChain.StepRow` | volcanoes/application/qualification/state_machine.py:59-152 | Every saved step is the work of exactly the row its decision names. |
| `RunChain.StepFacts` | volcanoes/application/qualification/state_machine.py:415-860 | What one saved step can do to state, result and effects, stated once for all rows. |
| `RunChain.ChainRevisions` | volcanoes/application/qualification/state_machine.py:100-152 | Entry i of a run's history was computed from version i, demanded version i and made version i+1. |
| `RunChain.SendsCounted` | volcanoes/application/qualification/state_machine.py:534-549 | The broker requests of a history, exactly: one for each restart that reopens a request, and one more unless the last request has been reopened. |
| `RunChain.AtMostOneSend` | volcanoes/application/qualification/state_machine.py:534-549 | A history without a reopening asks the broker at most once; a second request needs a reopening. |
| `RunChain.LeadOn` | volcanoes/application/qualification/state_machine.py:415-549 | Every valid history in a state before the request can be led on, without an unfaithful restart, to exactly one more request. |
| `RunChain.NoSendBehind` | volcanoes/application/qualification/state_machine.py:415-860 | Behind the request none follows without an unfaithful restart. |
| `RunChain.CanStillSend` | volcanoes/application/qualification/state_machine.py:415-860 | At any moment of any run another request can follow, without an unfaithful restart, if and only if the run is in a state before it. |
| `RunChain.RestartTo` | volcanoes/application/qualification/state_machine.py:847-859 | A restart to any state whatever is accepted in every open run. |
| `RunChain.RestartLetsSendAgain` | volcanoes/application/qualification/state_machine.py:278-285 | After a request, in every open run, a restart to a state lets one more request through if and only if that state lies before the request. |
| `RunChain.ApprovalOnRecord` | volcanoes/application/qualification/state_machine.py:482-533 | A run that stands approved, or about to submit, has a saved approval, and a saved submission start after it. |
| `RunChain.ApprovalPrecedesSend` | volcanoes/application/qualification/state_machine.py:482-549 | Every broker request comes after a saved approval and a saved submission start, each under its full guards, paper environment and unused key included. |
| `RunChain.ResultsConsistent` | volcanoes/application/qualification/state_machine.py:415-860 | At every version QUALIFIED goes with PASSED, ABORTED with ABORTED, and INCONCLUSIVE with exactly PRECHECK_FAILED, UNRESOLVED and RECONCILIATION_REQUIRED. |
| `RunChain.RankBound` | volcanoes/application/qualification/state_machine.py:415-860 | The ranking measure: accepted steps, restarts aside, are bounded by the rank they start from plus two for each failed precheck. |
| `RunChain.AtMostElevenFromReady` | volcanoes/application/qualification/state_machine.py:415-860 | At most eleven further steps from READY_FOR_APPROVAL. |
| `RunChain.ElevenIsReached` | volcanoes/application/qualification/state_machine.py:415-860 | Eleven steps can really happen: a path of eleven registry rows. |
| `RunChain.UnresolvedNeedsReconciliation` | volcanoes/application/qualification/state_machine.py:686-769 | After an unresolved outcome only a reconciliation outcome leads back into the normal states. |
| `RunChain.EvidenceForOutcome` | volcanoes/application/qualification/state_machine.py:626-820 | Qualified only on complete criteria evidence; cancelled only on the broker's word. |
| `RunChain.StepFor` | volcanoes/application/qualification/state_machine.py:59-152 | A first-use command whose row fits, whose guards are met and which no other reconciliation row claims does make a saved step by that row. |
| `QualificationService.InMemoryQualificationRunRepository.Get` | volcanoes/application/qualification/in_memory.py:33-39 | The stored run, none, or the port failure. |
| `QualificationService.InMemoryQualificationRunRepository.Save` | volcanoes/application/qualification/in_memory.py:41-70 | Compare-and-swap: the run is replaced exactly when no failure is set and the stored revision, if any, is the expected one; otherwise nothing changes. |
| `QualificationService.InMemoryQualificationRunRepository.PriorCommand` | volcanoes/application/qualification/in_memory.py:72-80 | The record filed under run and key. |
| `QualificationService.InMemoryQualificationRunRepository.RecordCommand` | volcanoes/application/qualification/in_memory.py:82-92 | Files one record, or fails and changes nothing. |
| `QualificationService.RecordingQualificationEvidenceRecorder.Record` | volcanoes/application/qualification/in_memory.py:103-121 | Appends the intents in order, or fails and changes nothing. |
| `QualificationService.PaperQualificationService.ExecuteCommand` | volcanoes/application/qualification/service.py:254-330 | New store and outcome of a call, for every store, command and port failure, as the specification function gives them; a command other than a start for a run not stored ends in RUN_NOT_FOUND, and no other does. What that function does is fixed by `ServiceLaw.CallObeys` and `FaultsByLaw`. |
| `QualificationService.PaperQualificationService.CommitDecision` | volcanoes/application/qualification/service.py:303-330 | Evidence, then run, then command record; a failure stops there and keeps what was written. |
| `QualificationService.ExecuteStepsOrLeaves` | volcanoes/application/qualification/service.py:254-330 | On failure-free ports a call either is accepted and adds exactly one version, one evidence intent and one record under a new key, or leaves the store as it was. |
| `QualificationService.DecisionFacts` | volcanoes/application/qualification/state_machine.py:100-137 | An accepted decision was computed from exactly the expected revision, under a key without record. |
| `QualificationService.ReplayErasure` | volcanoes/application/qualification/service.py:265-316 | Dropping every replayed and rejected command from any log gives the same runs, records and evidence; what remains is accepted command by command. |
| `QualificationService.KeyChangesRunOnce` | volcanoes/application/qualification/in_memory.py:72-92 | For calls one after the other on failure-free ports: records are write-once and a key changes a run at most once. Overlapping calls are counted in `IdempotencyKeys`. |
| `QualificationService.FaultyCall` | volcanoes/application/qualification/service.py:254-330 | Under any port failures of one call: records are never lost, a recorded key writes no version, and a version is left without its record exactly when an acceptable call meets a save that raises after its write or a record that raises before it. |
| `QualificationService.KeyUnderFaults` | volcanoes/application/qualification/service.py:303-330 | For calls one after the other under any failures: the versions a key writes are exactly its lost records plus the record it gained. |
| `QualificationService.LostRecordLetsKeyActAgain` | volcanoes/application/qualification/service.py:314-330 | A concrete pair of commands: after a lost record the same key changes the run again. |
| `ServiceLaw.WithoutRun` | volcanoes/application/qualification/service.py:332-362 | Whatever the other ports would do: a command other than START_QUALIFICATION for a run not stored raises RUN_NOT_FOUND, a second start of a run not started raises RUN_ALREADY_EXISTS, exactly then, and neither changes the store. |
| `ServiceLaw.FirstUseByLaw` | volcanoes/application/qualification/state_machine.py:59-137 | Why a first-use command is refused, in the order the reasons are looked at, and what its acceptance decides. |
| `ServiceLaw.CallObeys` | volcanoes/application/qualification/service.py:254-362 | Every outcome of a call on failure-free ports and everything it stores, by store and command alone: no run, run there already, replay, key conflict, each refusal, or exactly one version, one evidence intent and one record more. |
| `ServiceLaw.FaultsByLaw` | volcanoes/application/qualification/service.py:303-330 | What an acceptable command leaves when ports fail: the first failing port decides the error, and exactly what was written before it stays; any other command is unaffected or fails on its two reads. |
| `Interleaving.ReadSteps` | volcanoes/application/qualification/service.py:265-301 | Reading the run, and reading the prior command and deciding, keep the invariant. |
| `Interleaving.EvidenceSteps` | volcanoes/application/qualification/service.py:391-401 | Recording evidence, failing before or after its write, keeps the invariant. |
| `Interleaving.SaveSteps` | volcanoes/application/qualification/service.py:403-424 | The atomic save, succeeding, conflicting or failing, keeps the invariant: a save that goes through extends the chain by one. |
| `Interleaving.RecordSteps` | volcanoes/application/qualification/service.py:426-437 | Recording the command keeps the invariant: a record always names a saved step. |
| `Interleaving.RunKeepsInv` | volcanoes/application/qualification/service.py:254-330 | In every interleaving from any good world the invariant stays and saved histories only grow. |
| `Interleaving.OneChain` | volcanoes/application/qualification/service.py:260-316 | In every interleaving, under any port failures: the saved versions of a run form one chain, version i+1 decided from exactly version i, the stored run being its end, and each version's evidence recorded. |
| `Interleaving.RunsBeginWithStart` | volcanoes/application/qualification/service.py:349-362 | In every interleaving, under any failures, a stored run's history begins with a START_QUALIFICATION command, computed from the fresh run it creates. |
| `Interleaving.OneWinner` | volcanoes/application/qualification/in_memory.py:52-70 | One winner for each revision: no two accepted calls wrote the same version. |
| `Interleaving.NoCommandTwice` | volcanoes/application/qualification/service.py:265-330 | In every interleaving, under any failures, no command is applied twice. |
| `Interleaving.EvidenceAtMostOneAhead` | volcanoes/application/qualification/service.py:303-316 | Evidence is never more than one revision ahead of the saved run; every command record names a saved step. |
| `Interleaving.BrokerRequestSafety` | volcanoes/application/qualification/state_machine.py:415-549 | In every interleaving the requests are exactly the reopenings plus one unless the last is reopened; with faithful restarts at most one, after a saved approval and submission start. |
| `Interleaving.StoredResultConsistent` | volcanoes/application/qualification/state_machine.py:415-860 | In every interleaving the stored state and result agree. |
| `Interleaving.FiveSteps` | volcanoes/application/qualification/service.py:254-330 | The five port calls of one thread, uninterrupted, are one call of the service. |
| `Interleaving.UninterruptedCall` | volcanoes/application/qualification/service.py:254-330 | The same inside any world of other threads. |
| `IdempotencyKeys.KeyCounted` | volcanoes/application/qualification/service.py:265-330 | In every interleaving, under any failures: the versions written under a key are exactly the record it holds, the records it lost, the times a record was written over another, and the calls still about to record. |
| `IdempotencyKeys.KeyDecides` | volcanoes/application/qualification/state_machine.py:200-224 | A record turns a call away at its read of the prior command; without one it is decided as under a new key. |
| `IdempotencyKeys.SaveGoesThrough` | volcanoes/application/qualification/in_memory.py:52-70 | A save goes through, if its port lets it, exactly when the version the call read is still the saved one. |
| `IdempotencyKeys.BarredStays` | volcanoes/application/qualification/service.py:265-330 | A call barred from saving stays barred whatever any call does. |
| `IdempotencyKeys.CanSaveExactly` | volcanoes/application/qualification/service.py:265-330 | At any moment of any interleaving a call that has read the run can still save a version if and only if that version is still the saved one and, until it has read the prior command, no record of its key exists and its decision under a new key is an acceptance. |
| `IdempotencyKeys.RecordedKeySavesNothing` | volcanoes/application/qualification/service.py:271-301 | A call that starts, or reads the prior command, after a record of its key exists never saves a version. |
| `IdempotencyKeys.NewCallExactly` | volcanoes/application/qualification/service.py:265-330 | In every open run a new call can write a version under a key if and only if no record of the key exists when it starts. |
| `IdempotencyKeys.AtMostOneVersion` | volcanoes/application/qualification/service.py:265-330 | When calls under a key do not overlap and no record of it is lost, the key writes at most one version. |
| `IdempotencyKeys.OverlapWritesAgain` | volcanoes/application/qualification/service.py:303-330 | Without any failure, whenever a call has saved but not recorded in an open run, a second call under its key saves another version and both are accepted; the first writes its record over the second. |
| `IdempotencyKeys.OverlapWritesTwice` | volcanoes/application/qualification/service.py:303-330 | A failure-free run from the start in which two accepted calls write two versions under one key. |
| `Evidence.InMemoryCanonicalEvidenceRecorder.Record` | volcanoes/application/qualification/evidence.py:391-422 | Retained records, order and answer of a batch: known identities are kept once, a conflicting one stops the batch and keeps what came before. |
| `Evidence.RecordKeeps` | volcanoes/application/qualification/evidence.py:391-422 | Recording forgets nothing, keeps one record per identity and, when it succeeds, holds every intent of the batch. |
| `Evidence.RecordOne` | volcanoes/application/qualification/evidence.py:391-422 | A new identity goes to the end of the order; a known one changes nothing and is refused exactly when its record differs. |
| `Evidence.RecordStopsAtConflict` | volcanoes/application/qualification/evidence.py:391-422 | A batch fails exactly at the first intent that conflicts, and everything before it is kept. |
| `Evidence.RecordAgainAddsNothing` | volcanoes/application/qualification/evidence.py:391-422 | Recording the same batch again changes nothing and answers the same. |
| `Evidence.RetryAfterFailedSave` | volcanoes/application/qualification/service.py:303-316 | After a failed or conflicting save an identical retry offers the same evidence, so no second record appears. |
| `Evidence.SavedEvidenceIsDistinct` | volcanoes/application/qualification/evidence.py:487-512 | In every interleaving two different saved versions have evidence of different identity. |
| `Evidence.SavedEvidenceSays` | volcanoes/application/qualification/evidence.py:473-512 | In every interleaving the evidence of a saved step names its command, run, states, revisions and result, and its type follows from the event. |
| `Money.WholeUnitsFit` | volcanoes/risk/trade_policies.py:510-513 | Comparing a quantity with the floor quotient and comparing its cost with the capital are the same test, whatever the sign of the capital. |
| `Money.FloorQuotient` | volcanoes/risk/trade_policies.py:510-513 | A floor quotient is at least n exactly when n units fit the capital. |
| `TradePlanner.Plan` | volcanoes/execution/trade_planner.py:55-151 | The plan, or the sizing error, as the specification function gives it and as `PlanByLaw` describes it without that function: it orders exactly its capped size for the intent's symbol and price, which is the least of the risk size and the limits, and is approved or explained by the policies' own answers. |
| `TradePlanner.ApplyPolicies` | volcanoes/execution/trade_planner.py:96-110 | The policy loop yields every decision up to the first rejection, or all of them, the rejections among them in order, and the least of the limits. |
| `TradePlanner.Conclude` | volcanoes/execution/trade_planner.py:110-151 | Request, reasons, code and approval that follow from the decisions: a request exactly when the capped size is not zero, for that size. |
| `TradePlanner.PlansByLaw` | volcanoes/execution/trade_planner.py:55-151 | For every policy set, view, intent, target and open orders: which sizing error is raised and when; which policies are asked; that the size is the least of risk size and limits; that a plan has a request if and only if its size is positive, of that size at the intent's symbol and price; when it is approved, and whose code and reason it carries otherwise. |
| `TradePlanner.RiskQuantityIsGreatest` | volcanoes/sizing/position_sizer.py:20-53 | The risk size is the greatest number of shares whose risk stays within the allowance. |
| `TradePolicies.BuyingPowerLimits` | volcanoes/risk/trade_policies.py:317-348 | Reject mode refuses exactly what costs more than the buying power; cap mode never refuses and names the greatest number of shares that costs no more. |
| `TradePolicies.PositionSizeLimits` | volcanoes/risk/trade_policies.py:385-435 | The same for the position fraction of equity, less what is held where that counts. |
| `TradePolicies.ExposureLimits` | volcanoes/risk/trade_policies.py:466-507 | The same for the exposure fraction of equity, less what is invested. |
| `TradePolicies.RewardRiskExactly` | volcanoes/risk/trade_policies.py:231-275 | On either side: approved if and only if there is a target at least the required multiple of the risk away, in the trade's direction. |
| `ExecutionParity.StopsAtFirst` | volcanoes/execution/trade_planner.py:100-110 | A policy list that never caps and stops at its first rejection ends with that rejection, at the sized quantity. |
| `ExecutionParity.DefaultVerdicts` | volcanoes/risk/trade_policies.py:131-163 | Each of the five default policies as a comparison of amounts. |
| `ExecutionParity.SameFirstViolation` | volcanoes/risk/risk_manager.py:17-132 | The first policy to reject is the first check to raise, with the same code and message. |
| `ExecutionParity.PlannerMatchesRiskManager` | volcanoes/risk/risk_manager.py:17-38 | For every portfolio view and intent: planning under the execution profile approves exactly when the risk manager validates the trade, and otherwise gives the code and message of the first violation; with no share sized it is refused without a code. |
| `PreviewParityModel.LegacyEvaluate` | trading/risk_manager.py:44-127 | Quantity, amounts and ordered reasons of the legacy evaluation; none where it divides by zero. |
| `PreviewParityModel.CheckProposal` | trading/risk_manager.py:59-70 | The reasons that look at the proposal and the equity only, in order. |
| `PreviewParityModel.HoldingsHold` | adapters/broker_portfolio_view.py:111-127 | The view holds a symbol exactly when some broker position does. |
| `PreviewParityModel.AllRejections` | volcanoes/execution/trade_planner.py:96-132 | With all rejections collected, the explanations are the failing policies' texts in policy order. |
| `PreviewParityModel.PreviewVerdicts` | volcanoes/risk/trade_policies.py:166-203 | Each preview policy rejects under exactly the condition of the legacy rule, with the same reason. |
| `PreviewParityModel.SameReasons` | trading/risk_manager.py:59-118 | Planner and legacy code list the same reasons in the same order. |
| `PreviewParityModel.SameLimits` | adapters/paper_order_composition.py:52-78 | The three capital limits of the policies are the legacy floor quotients, percentages having become fractions. |
| `PreviewParityModel.SameQuantity` | volcanoes/execution/trade_planner.py:110-114 | The capped size is the legacy quantity. |
| `PreviewParityModel.PreviewMatchesLegacy` | volcanoes/risk/trade_policies.py:166-203 | For every well-formed buy, positive equity and limits in range, planner and legacy evaluation agree on approval, quantity, order, capital, loss, code and the ordered reasons. |
| `PreviewParityModel.PreviewCodes` | volcanoes/execution/trade_planner.py:122-132 | The code of a preview plan is that of its first reason; a plan left without shares has none. |
| `PreviewParityModel.PreviewOrdersWhatFits` | volcanoes/execution/trade_planner.py:110-151 | An approved preview orders the legacy quantity, and every preview order costs no more than buying power, position limit and exposure room and risks no more than the risk limit. |
| `PreviewParityModel.ReasonsExactly` | trading/risk_manager.py:59-118 | For every proposal, malformed ones included, each reason is given if and only if its rule is broken. |
| `PreviewParityModel.ReasonsInOrder` | trading/risk_manager.py:59-118 | The reasons stand in their places, none twice. |
| `PreviewParityModel.LegacyApprovesExactly` | trading/risk_manager.py:44-127 | For every proposal: approved if and only if every rule holds and at least one share fits all four limits. |
| `PreviewParityModel.QuantityIsGreatest` | trading/risk_manager.py:94-115 | n shares are within the agreed quantity if and only if they respect the risk, buying-power, position and exposure limits. |
| `Accounts.AveragedCost` | volcanoes/domain/position.py:37-56 | Averaging keeps the cost basis: the old cost plus what was paid. |
| `Accounts.InvestedUpdate` | volcanoes/portfolio/portfolio.py:47-57 | Replacing one holding changes the invested value by exactly its own change. |
| `Accounts.ReducedInvested` | volcanoes/portfolio/portfolio.py:172-175 | Selling lowers the invested value by the quantity at average price; an emptied position is gone. |
| `Accounts.BuyKeeps` | volcanoes/portfolio/portfolio.py:89-134 | A purchase moves its cost from cash into the book and leaves equity alone. |
| `Accounts.SellKeeps` | volcanoes/portfolio/portfolio.py:136-183 | A sale changes equity by proceeds less cost and keeps it positive. |
| `Accounts.PurchaseExactly` | volcanoes/portfolio/portfolio.py:89-134 | A purchase succeeds if and only if symbol, quantity and price are in order and the cost is within the cash; each error exactly when its check is the first to fail; and the whole account after it. |
| `Accounts.SaleExactly` | volcanoes/portfolio/portfolio.py:136-183 | A sale succeeds if and only if symbol, quantity and price are in order, the symbol is held and no more is sold than is held, the whole holding included; each error exactly; and the whole account after it. |
| `Accounts.BuyThenSellAll` | volcanoes/portfolio/portfolio.py:89-183 | Buying a new symbol and selling all of it at the same price always goes through and restores cash, book and realized profit, leaving two ledger entries that cancel. |
| `Accounts.SaleSplits` | volcanoes/portfolio/portfolio.py:136-183 | Selling in two parts goes through exactly when selling the sum does, and leaves the same cash, profit and book. |
| `Accounts.BuyReplays` | volcanoes/portfolio/portfolio.py:120-134 | The ledger entry of a purchase alone rebuilds it. |
| `Accounts.TradesKeep` | volcanoes/portfolio/portfolio.py:89-183 | Every sequence of trades, refused ones included, keeps the accounting invariant. |
| `Accounts.LedgerFold` | volcanoes/portfolio/portfolio.py:89-183 | After any trades a fresh account is the replay of its own ledger; equity is starting cash plus realized profit and cash is starting cash plus the ledger amounts. |
| `PortfolioModel.Position.UpdateAveragePrice` | volcanoes/domain/position.py:37-56 | The averaged position, or the input error with nothing changed. |
| `PortfolioModel.Ledger.Record` | volcanoes/ledger/ledger.py:14-18 | Appends one entry. |
| `PortfolioModel.Portfolio.Buy` | volcanoes/portfolio/portfolio.py:89-134 | The account after a purchase, or the error with the account unchanged; it succeeds exactly when the input is in order and the cost is within the cash. |
| `PortfolioModel.Portfolio.AddShares` | volcanoes/portfolio/portfolio.py:108-119 | Opens a position or averages an existing one; every other position is untouched. |
| `PortfolioModel.Portfolio.Sell` | volcanoes/portfolio/portfolio.py:136-183 | The account after a sale, or the error with the account unchanged; it succeeds exactly when the input is in order and no more is sold than is held, the whole holding included. |
| `PortfolioModel.Portfolio.RemoveShares` | volcanoes/portfolio/portfolio.py:170-175 | Lowers the position and drops it at zero. |
| `PortfolioModel.Portfolio.InvestedValue` | volcanoes/portfolio/portfolio.py:47-57 | The sum of the cost bases of all positions, in whatever order they come. |
| `PortfolioModel.Portfolio.View` | volcanoes/portfolio/portfolio.py:47-87 | The figures the planning policies read: starting cash, realized profit, cash, the positions' cost and count and each quantity, every one in its own field. |
| `PortfolioModel.PaperBroker.SubmitOrder` | volcanoes/execution/paper_broker.py:25-44 | A filled order has made its trade, a rejected one has changed nothing and says why; either is listed. |
| `PortfolioModel.PaperBroker.ProcessBuy` | volcanoes/execution/paper_broker.py:81-97 | The purchase, or the rejection with its reason. |
| `PortfolioModel.PaperBroker.ProcessSell` | volcanoes/execution/paper_broker.py:99-115 | The sale, or the rejection with its reason. |
| `Pipeline.ExecutionPipeline.Execute` | volcanoes/execution/execution_pipeline.py:69-92 | New account and outcome of one execution, as planning and submitting give them. |
| `Pipeline.ExecutionPipeline.SubmitPlan` | volcanoes/execution/execution_pipeline.py:94-150 | Refusal with code, refusal without, the exceptions for a missing request, a mismatch or an order the constructor refuses, or the broker's completed order. |
| `Pipeline.SubmitPlanExactly` | volcanoes/execution/execution_pipeline.py:94-150 | What becomes of any plan: submitted exactly when approved with a valid request for the intent's symbol and price; nothing else touches the account. |
| `Pipeline.ExecutesByLaw` | volcanoes/execution/execution_pipeline.py:69-150 | Every outcome of one execution by the account's own amounts: sizing errors, nothing sized, the first of five limits broken with its code and message, a filled purchase, a sale filled exactly when the shares are held. |
| `Pipeline.DailyLossStops` | volcanoes/risk/trade_policies.py:351-383 | When realized profit has fallen to the daily loss fraction of the starting cash, an execution leaves the account alone and submits nothing; with at least one share sized it answers MAX_DAILY_LOSS. |
| `Pipeline.StoppedForGood` | volcanoes/risk/trade_policies.py:351-383 | Once past the daily loss no run of executions ever changes the account again. |
| `Pipeline.PlanFacts` | volcanoes/risk/trade_policies.py:131-163 | An approved plan orders the risk size, costs no more than the cash, leaves position value and exposure within their limits, opens a position only while there is room, and is never made past the daily loss. |
| `Pipeline.BuyStays` | volcanoes/portfolio/portfolio.py:89-134 | An approved purchase is filled and stays within the limits. |
| `Pipeline.SellStays` | volcanoes/portfolio/portfolio.py:136-183 | A sale, even at a loss, stays within the limits. |
| `Pipeline.LossStaysWithin` | volcanoes/risk/trade_policies.py:466-507 | Selling at a loss lowers equity by no more than exposure, so a limit of at most the whole still holds. |
| `Pipeline.StepKeepsLimits` | volcanoes/execution/execution_pipeline.py:69-150 | One execution keeps the limits, never raises, submits nothing past the daily loss, fills every purchase it submits and a sale exactly when the shares are held, and changes the account only when it fills. |
| `Pipeline.RunKeepsLimits` | volcanoes/execution/execution_pipeline.py:69-150 | So does every sequence of executions. |
| `Pipeline.FreshRunsStayWithinLimits` | volcanoes/risk/trade_policies.py:131-163 | A fresh account traded only through the pipeline: exposure and open positions within their limits, equity positive, no exception, every approved purchase filled. |
| `Drawdown.HigherPeakFallsMore` | volcanoes/analytics/metrics/drawdown.py:77-85 | From the same low, the higher peak falls by the larger fraction. |
| `Drawdown.RunningExtends` | volcanoes/analytics/metrics/drawdown.py:74-91 | One more snapshot keeps the running maximum the maximum over all pairs, or shows a ruin as a fraction above one. |
| `Drawdown.Calculate` | volcanoes/analytics/metrics/drawdown.py:55-99 | For every equity series: it returns if and only if some equity is not negative and none is negative after a positive one; then the maximum drawdown is the maximum over all pairs i <= j, its amount belongs to a pair that attains it, peak and current fall are right, and the metric checks pass. |
| `Drawdown.Analyze` | volcanoes/analytics/analytics_engine.py:22-71 | A report comes out if and only if the drawdown is measurable and the first and last equities are not negative; its return recovers the last equity from the first. |
| `Backtest.HistoricalFeed.NextBar` | volcanoes/market/historical_feed.py:57-66 | The next unread bar and one step forward, or the end with nothing changed. |
| `Backtest.HistoricalFeed.Reset` | volcanoes/market/historical_feed.py:76-79 | All bars remain again. |
| `Backtest.AnsweredKeeps` | volcanoes/backtest/backtest_engine.py:74-88 | One answer of the strategy keeps the limits and the starting cash, and never raises. |
| `Backtest.BarStep` | volcanoes/backtest/backtest_engine.py:68-92 | One bar moves every running total by what its answer does. |
| `Backtest.NothingUnrealized` | volcanoes/backtest/backtest_engine.py:107-126 | Positions are carried at cost: unrealized profit is zero and equity is starting cash plus realized profit. |
| `Backtest.SnapshotIsAccount` | volcanoes/backtest/backtest_engine.py:107-126 | A snapshot is its account: cash is the starting cash plus the ledger amounts, equity is cash plus market value and starting cash plus realized profit, market value and position count are within their limits. |
| `Backtest.StopsForGood` | volcanoes/backtest/backtest_engine.py:68-92 | Once the daily loss is reached the rest of a backtest leaves the account and the submitted orders as they are, whatever the strategy answers. |
| `Backtest.RecordedMeasurable` | volcanoes/backtest/backtest_engine.py:94-95 | Every snapshot of a run stays within the limits and explains its equity, and their drawdown is measurable. |
| `Backtest.BacktestEngine.Run` | volcanoes/backtest/backtest_engine.py:53-105 | From an account within its limits, a fresh one included, consumes the feed and never raises: snapshots equal bars, executed plus rejected equal signals, each snapshot is that of the account after its bar, every snapshot is within the limits, and report and result pass their own checks. |
| `Backtest.BacktestEngine.ProcessBar` | volcanoes/backtest/backtest_engine.py:68-92 | One turn of the loop. |
| `Backtest.BacktestEngine.Answer` | volcanoes/backtest/backtest_engine.py:74-88 | The account and outcome of one answer. |
| `Backtest.BacktestEngine.CreateSnapshot` | volcanoes/backtest/backtest_engine.py:107-126 | The snapshot of the present account. |
| `Rotation.SizePaperPosition` | global_rotation/risk.py:166-261 | Budget, quantity, values and ordered blockers, or the price error, as the specification function gives them. |
| `Rotation.GatherBlockers` | global_rotation/risk.py:201-234 | Position cap and blockers in their order. |
| `Rotation.QuantityFits` | global_rotation/risk.py:197-243 | The rounded quantity spends no more than the position cap and risks no more than the risk budget. |
| `Rotation.QuantityIsGreatest` | global_rotation/risk.py:236-243 | It is the greatest number of whole units, or of millionths, that respects both. |
| `Rotation.SizedFacts` | global_rotation/risk.py:245-261 | A quantity is not zero exactly when nothing blocks; reserved value and planned loss stay within their limits. |
| `Rotation.BlockedIff` | global_rotation/risk.py:128-140 | Nothing blocks exactly when the portfolio is fully verified, the symbol is new, a place is free, the loss lock is off and capacity remains. |
| `Rotation.BudgetExactly` | global_rotation/risk.py:197-200 | An amount is within the risk budget if and only if it is within both risk limits. |
| `Rotation.CapExactly` | global_rotation/risk.py:219-234 | An amount is within the position cap if and only if it is within the position limit, the buying power, the room under the exposure limit and, unless the phase is known to be mature, the qualification cap. |
| `Rotation.SizesByLaw` | global_rotation/risk.py:236-261 | An unblocked size is the greatest number of ticks that respects every limit of the policy, at least one; cost, loss and profit are that quantity at the entry, down to the stop and up to the target. |
| `Rotation.BlocksExactly` | global_rotation/risk.py:201-252 | Each blocker stands in the list if and only if its condition holds, once and in its place. |
| `Rotation.EvaluatesByLaw` | global_rotation/engine.py:353-419 | Every field of a candidate by facts and portfolio: the four categories, the blockers in order, the size, score and reward-risk. |
| `Rotation.OutcomeIgnoresPortfolio` | global_rotation/engine.py:248-300 | Whether an instrument yields a candidate, nothing or an error does not depend on the portfolio. |
| `Rotation.PreparedFacts` | global_rotation/engine.py:353-381 | The category is "preparar" exactly when the quantity is not zero. |
| `Rotation.PreparedRespectsPolicy` | global_rotation/risk.py:197-234 | A prepared candidate in the policy's own terms: loss, position, buying power, exposure, daily loss, duplicate and count limits of the right phase. |
| `Rotation.RawShrinks` | global_rotation/risk.py:219-243 | More committed capital never gives a larger quantity. |
| `Rotation.BlockersStay` | global_rotation/risk.py:201-234 | What blocks a portfolio blocks every later one. |
| `Rotation.SizingShrinks` | global_rotation/risk.py:201-252 | Sizing is antitone in committed capital; a blocked candidate stays blocked and keeps its category. |
| `Allocation.PreparedIsVerified` | global_rotation/engine.py:199-206 | A prepared candidate implies complete portfolio truth, so the second RuntimeError is unreachable. |
| `Allocation.StepKeeps` | global_rotation/engine.py:180-217 | One step moves exactly the reserved value from buying power to exposure, opens one new symbol and keeps both limits. |
| `Allocation.AllocateRankedPreviews` | global_rotation/engine.py:161-218 | Every candidate of the result and the projected portfolio; neither RuntimeError arises and each projected portfolio passes its validation. |
| `Allocation.AllocationConserves` | global_rotation/engine.py:178-218 | Over the whole pass exposure grows and buying power falls by exactly the sum of the reserved values, exposure stays within the larger of its start and its limit, so does the open count, and no symbol repeats. |
| `Allocation.AllottedFacts` | global_rotation/engine.py:178-218 | Each result keeps its symbol, is never larger than first previewed, is within the risk budget and what was left, and a skipped candidate would not have been prepared either. |
| `Allocation.AllottedByLaw` | global_rotation/engine.py:180-217 | A candidate not to be prepared is passed on as it was; any other is evaluated afresh, every field, against what the candidates before it left. |
| `Allocation.PreparedOnce` | global_rotation/engine.py:178-218 | No symbol is prepared twice. |
| `Scan.FirstPass` | global_rotation/engine.py:75-127 | Candidates, rejections and valid count of the pass; it raises exactly when a first-listed readable instrument has prices that sizing refuses. |
| `Scan.EveryInstrumentCounts` | global_rotation/engine.py:80-127 | Every instrument is a candidate or a rejection, once. |
| `Scan.ValidAreReadable` | global_rotation/engine.py:80-117 | The valid count is the number of first-listed instruments with a configured region and a clean history. |
| `Scan.RejectedExactly` | global_rotation/engine.py:80-127 | Each symbol is rejected for exactly the first thing it lacks, and as a duplicate exactly when it is listed again. |
| `Scan.FirstIsFiled` | global_rotation/engine.py:172-176 | Each symbol is looked up as the first instrument listed with it. |
| `Scan.RankingIsReproducible` | global_rotation/engine.py:185-195 | In whatever order candidates are ranked, the allocation reproduces each one's evaluation, so the first RuntimeError is unreachable. |
| `Scan.CandidatesAreDistinct` | global_rotation/engine.py:77-89 | No two candidates share a symbol. |
| `Scan.ByRank` | global_rotation/engine.py:129-137 | The list in the order of the sort key. |
| `Scan.ByRankPermutes` | global_rotation/engine.py:129-137 | Ranking loses and adds no candidate. |
| `Scan.OrderInPlainTerms` | global_rotation/engine.py:129-137 | The sort key in plain terms: prepared, waiting, watched, chased; then score and reward-risk falling, then symbol. |
| `Scan.AtMostIsLexicographic` | global_rotation/engine.py:129-137 | The symbol order is the dictionary order. |
| `Scan.FirstIsBest` | global_rotation/engine.py:145-159 | The listed candidates are as many as the limit allows, in that order pair by pair, and none left out comes before one listed. |
| `Scan.RankingIgnoresOrder` | global_rotation/engine.py:129-137 | Candidates of different symbols have one ranking, in whatever order they are found. |
| `Scan.ScanUniverse` | global_rotation/engine.py:67-159 | The whole scan: it raises exactly when the first pass does; it lists the best allocated previews in rank order, accounts for every instrument, and conserves and bounds the capital it reserves. |
| `SubmitTrade.NoDifferenceIsSame` | volcanoes/application/services/submit_trade.py:496-513 | No difference is reported exactly when the two plans agree on every material value. |
| `SubmitTrade.SubmitsWhatWasShown` | volcanoes/application/services/submit_trade.py:195-282 | A call goes on to the broker exactly when planning afresh reproduces the preview and the preview was approved; what it submits is the displayed quantity, at least one share, of the requested symbol at the requested price. |
| `SubmitTrade.StopsBeforeReserving` | volcanoes/application/services/submit_trade.py:195-282 | Why a call stops before it reserves: malformed or unplannable, a plan that differs from the displayed one with exactly the differences, or one not approved with its code. |
| `SubmitTrade.DifferencesExactly` | volcanoes/application/services/submit_trade.py:496-513 | A field is named if and only if its values differ, once and in order. |
| `SubmitTrade.OutcomeExactly` | volcanoes/application/services/submit_trade.py:284-414 | Each outcome of a call if and only if: raised, broker error, execution rejected, broker rejected, duplicate, submitted. |
| `SubmitTrade.SubmitTradeService.Reserve` | volcanoes/application/services/submit_trade.py:418-448 | Duplicate exactly when submitted or in flight; otherwise the request goes in flight. |
| `SubmitTrade.SubmitTradeService.Release` | volcanoes/application/services/submit_trade.py:450-459 | The request leaves flight and is recorded when it was submitted. |
| `SubmitTrade.SubmitTradeService.Submit` | volcanoes/application/services/submit_trade.py:284-416 | Whatever is raised in between, the reservation is undone, and the request is recorded exactly when the call returns submitted. |
| `SubmitTrade.SubmitTradeService.Execute` | volcanoes/application/services/submit_trade.py:289-414 | Submitted exactly when the broker takes the order and every announcement goes out. |
| `SubmitTrade.StepKinds` | volcanoes/application/services/submit_trade.py:284-459 | Every atomic step acquires a reservation, releases one, or changes neither set. |
| `SubmitTrade.ReservationsStep` | volcanoes/application/services/submit_trade.py:418-459 | Submitted and in-flight sets stay apart and a request is in flight exactly while one thread holds it. |
| `SubmitTrade.ReturnsStep` | volcanoes/application/services/submit_trade.py:373-416 | A request is recorded exactly when one call returned submitted for it. |
| `SubmitTrade.OrdersStep` | volcanoes/application/services/submit_trade.py:289-416 | Every order the broker took is recorded, about to be, or forgotten because the broker or the publisher raised after it was taken. |
| `SubmitTrade.RunKeepsInv` | volcanoes/application/services/submit_trade.py:284-459 | The three hold in every interleaving. |
| `SubmitTrade.OneHolderOneSuccess` | volcanoes/application/services/submit_trade.py:284-459 | In every interleaving at most one thread holds a request and at most one call for it returns submitted. |
| `SubmitTrade.BrokerOrdersBounded` | volcanoes/application/services/submit_trade.py:289-416 | The broker takes at most one order for a request plus one for each order forgotten; if neither broker nor publisher raises after an order was taken, at most one. |
| `SubmitTrade.OrdersWhenAllReturned` | volcanoes/application/services/submit_trade.py:284-459 | Once all calls have returned: orders taken equal orders forgotten plus one if the request is recorded; nothing is left in flight. |
| `SubmitTrade.UndisturbedCall` | volcanoes/application/services/submit_trade.py:186-416 | One call with nobody in between ends, in the interleaved model, with the outcome and the two sets of the sequential method; an order is taken exactly when the call reaches a broker that takes it, and forgotten exactly when the call then does not return submitted. |
| `SubmitTrade.AloneIsReached` | volcanoes/application/services/submit_trade.py:186-416 | Such a call is one of the interleavings. |
| `SubmitTrade.TakenAgainExactly` | volcanoes/application/services/submit_trade.py:418-459 | Whatever came before, the next call can have an order taken for a request if and only if the request is neither recorded nor in flight. |
| `SubmitTrade.WaysToLose` | adapters/paper_broker_execution.py:36-59 | An order is taken and forgotten exactly when the broker raises after taking it or the publisher raises while announcing it. |
| `SubmitTrade.LostOrderIsTakenAgain` | volcanoes/application/services/submit_trade.py:348-416 | Two calls for one request: in whichever way the first loses its order, the broker takes a second. |
| `EventDelivery.CountersAddUp` | volcanoes/application/operations/event_delivery.py:217-226 | Every outcome falls in exactly one of the four counters. |
| `EventDelivery.RecordedAgrees` | volcanoes/application/operations/event_delivery.py:217-230 | Appending and trimming keep exactly the last outcomes. |
| `EventDelivery.RetriesUnique` | volcanoes/application/operations/event_delivery.py:127-147 | The number of retries is determined by the answers and the attempt limit. |
| `EventDelivery.ObservableEventPublisher.Publish` | volcanoes/application/operations/event_delivery.py:118-193 | Attempts, retries, the one outcome recorded and whether it raises, for every sequence of answers. |
| `EventDelivery.ObservableEventPublisher.RecordTerminal` | volcanoes/application/operations/event_delivery.py:217-230 | The counters and the trimmed history after one outcome. |
| `EventDelivery.ObservableEventPublisher.KeepRecent` | volcanoes/application/operations/event_delivery.py:227-230 | Append, then delete the overflow from the front. |
| `EventDelivery.StepKeepsInv` | volcanoes/application/operations/event_delivery.py:118-230 | Every critical section and every delegate call keeps the invariant. |
| `EventDelivery.DeliveryConserves` | volcanoes/application/operations/event_delivery.py:118-230 | In every interleaving attempts less retries equal outcomes plus calls in an attempt, outcomes equal the finished calls and the four counters, and diagnostics are exactly the last outcomes. |
| `EventDelivery.NothingRepeatedBlindly` | volcanoes/application/operations/event_delivery.py:127-168 | Nothing is attempted again after an answer that does not prove the event unsent, nor past the attempt limit. |
| `EventDelivery.FinishedLikeAlone` | volcanoes/application/operations/event_delivery.py:118-193 | A finished call of any interleaving made the attempts and recorded the outcome it would have alone. |
| `EventDelivery.StatusTellsTheTruth` | volcanoes/application/operations/event_delivery.py:149-191 | Delivery is recorded exactly on the delegate's word, an unknown outcome exactly when an external delegate broke down, a failure otherwise; each of the six reason codes exactly in its case; event, correlation and attempts are the call's own. |
| `EventDelivery.EveryOutcomeIsTruthful` | volcanoes/application/operations/event_delivery.py:118-193 | In every interleaving every finished call left such an outcome, and retries count as exhausted only when every allowed attempt proved the event unsent. |
| `Congressional.RoundedHundredth` | global_rotation/congressional.py:357 | The nearest integer, ties to even. |
| `Congressional.FreshestAge` | global_rotation/congressional.py:262 | The least age, attained by some disclosure. |
| `Congressional.Largest` | global_rotation/congressional.py:276-283 | The largest reported upper amount, none exactly when none is reported. |
| `Congressional.SortedLags` | global_rotation/congressional.py:286 | The lags in ascending order. |
| `Congressional.LagCounts` | global_rotation/congressional.py:286 | The sorted lags hold each lag as often as the disclosures do. |
| `Congressional.MedianPermutes` | global_rotation/congressional.py:286 | The median depends only on which disclosures there are. |
| `Congressional.Strength` | global_rotation/congressional.py:249-294 | Zero without disclosures of the side, otherwise from 20 to 100. |
| `Congressional.StrengthPermutes` | global_rotation/congressional.py:249-294 | So does the strength of a side. |
| `Congressional.ScoreIgnoresOrderAndFuture` | global_rotation/congressional.py:297-397 | Reordering the trades, or adding any published after the date anywhere in the list, leaves the whole signal unchanged. |
| `Congressional.ScoreReadsOnlyTheWindow` | global_rotation/congressional.py:309-316 | Disclosures of other symbols, published after the date or longer ago than the lookback change nothing, wherever they stand in the list. |
| `Congressional.WindowIsCounted` | global_rotation/congressional.py:309-397 | Every disclosure in the window is counted, on its side, and bounds the freshest age and the largest amount. |
| `Congressional.StrengthByFacts` | global_rotation/congressional.py:217-294 | The strength of a side is a base of 20 and a bonus for each thing its disclosures show (how recent, how many politicians, one of them twice, how large, how late), up to 100. |
| `Congressional.DirectionByLaw` | global_rotation/congressional.py:311-361 | Direction and score by the strength of the sides, each direction if and only if; available exactly when a disclosure lies in the window. |
| `Congressional.AdjustmentByLaw` | global_rotation/congressional.py:341-361 | The adjustment is the maximum scaled by the difference of the two strengths out of a hundred, to the nearest whole point. |
| `Congressional.TradersInWindow` | global_rotation/congressional.py:362-367 | The politicians counted on a side are those with a disclosure of that side in the window. |
| `Congressional.RoundingIsSymmetric` | global_rotation/congressional.py:357 | Half-even rounding is odd. |
| `Congressional.ClampIsIdle` | global_rotation/congressional.py:357-361 | The clamp never changes the rounded adjustment. |
| `Congressional.SwapMirrors` | global_rotation/congressional.py:341-397 | Exchanging purchases and sales keeps the score, negates the adjustment, mirrors the direction and exchanges the counts. |
| `Congressional.PurchasesAreBullish` | global_rotation/congressional.py:341-361 | Purchases alone are bullish and never lower the priority. |
| `Congressional.SmallMaximumNeverRaises` | global_rotation/congressional.py:208-214 | With a maximum adjustment of at most 15 the signal's range check always passes. |
| `Congressional.LargeMaximumRaises` | global_rotation/congressional.py:208-214 | With any larger maximum four purchases of one day make it fail. |
| `Congressional.AcceptsEveryScoreExactly` | global_rotation/congressional.py:208-214 | Every signal is accepted if and only if the maximum adjustment is at most 15. |

## Left out

- Decimal's 28-digit context rounding and floating-point error: amounts are exact reals; the two-decimal rounding of displayed values is not modelled.
- NaN, infinities and wrong argument types: values are finite and well-typed.
- Message and explanation texts: each is a tagged value with the numbers it prints; the reasons and source names of a congressional signal are not modelled.
- Symbol and name normalization (strip, upper, casefold): strings stand for their normalized form.
- SHA-256 and JSON text: an evidence identity or payload fingerprint is the fields that are hashed, so the hash is taken to be injective.
- Redaction, metadata and timestamp normalization of evidence records, and digests of whole records.
- Blank-field validation of qualification commands, and the plan kinds and diagnostics an accepted command returns; diagnostic evidence of rejections is not recorded by the service.
- The operation log and reset methods of the in-memory ports.
- Crashes in the middle of a port call and several processes sharing one store: a port call is one atomic step that may fail before or after its write.
- Faithfulness of restarts: the code lets a restart move a run to any state; the theorems that assume faithful restarts say so, and the others state what such a restart allows.
- Row 34 of the registry aborts from uncertain states on its caller's guard alone; that the guard is true is the caller's business.
- A pipeline whose planner reads one portfolio and whose broker trades another: both are the same object here, as they are composed.
- Portfolios restored from storage: they start with an empty ledger, so the ledger law is stated for fresh accounts.
- Position and order timestamps, broker order identifiers, stop and target prices carried on orders.
- The market feed and strategies: the sorting of bars in the feed's constructor and the strategy's own state are not modelled; a strategy is the sequence of its answers.
- The scoring half of candidate evaluation (indicators, regimes, guardian): a record of facts that does not read the portfolio.
- The ranking key is the category, the summed scores, the reward-risk ratio and the symbol; the two numbers are inputs, and the allocation's results hold for every order.
- Benchmark classification of regions, and the fixed-point display values of candidates.
- Around submission: operational metrics and the contents of published events are left out; several publications made on one path before the reservation count as one that may raise.
- The delegate of event delivery: it is an arbitrary sequence of answers; exceptions that end the interpreter are not modelled.
- User interfaces, market data, Alpaca, SQLite and JSON adapters, runtime composition, release scripts and process-local metrics: input and output, or single-branch code.
- Congressional data: the interchange parser and the universe-wide wrapper, which calls the scorer symbol by symbol, are left out.
