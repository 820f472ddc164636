/** The guarded transition registry and the pure decision function
  * (volcanoes/application/qualification/state_machine.py).
  */
module StateMachine {
  import opened Wrappers
  import opened QualificationContracts

  datatype TransitionError =
    | IdempotencyConflict
    | StaleRevision
    | TerminalState
    | InvalidTransition
    | AmbiguousTransition
    | GuardDisambiguationFailed
    | GuardMissing(missing: set<Guard>)
    | MissingDestination

  // One registry row.  `source` and `destination` are None where the source
  // file writes None; no row has more than one side effect.
  datatype TransitionSpec = TransitionSpec(
    source: Option<QualificationState>,
    eventType: EventType,
    destination: Option<QualificationState>,
    effect: Option<SideEffect>,
    retry: RetryClassification,
    result: QualificationResult,
    anyNonTerminal: bool,
    anyActiveRecovery: bool)

  function Spec(source: QualificationState, event: EventType, destination: QualificationState,
                effect: Option<SideEffect>, retry: RetryClassification, result: QualificationResult): TransitionSpec
  {
    TransitionSpec(Some(source), event, Some(destination), effect, retry, result, false, false)
  }

  const ROWS := 35
  const DISQUALIFY_ROW := 33
  const ABORT_ROW := 34
  const RESTART_ROW := 35

  predicate IsRow(id: nat) { 1 <= id <= ROWS }

  /** How far a run is from its end: no path from a state of rank n has more than
    * n steps, restarts and failed prechecks aside. */
  function Rank(state: QualificationState): nat {
    match state
    case NotStarted => 13
    case PrecheckFailed => 13
    case PrecheckPending => 12
    case ReadyForApproval => 11
    case ApprovalPending => 10
    case Approved => 9
    case SubmissionPending => 8
    case Submitted => 7
    case Unresolved => 6
    case ReconciliationRequired => 5
    case Acknowledged => 4
    case PartiallyFilled => 3
    case CancellationRequested => 2
    case Filled => 1
    case Cancelled => 1
    case Rejected => 1
    case Expired => 1
    case Qualified => 0
    case Disqualified => 0
    case Aborted => 0
  }

  /** The result recorded with a state. */
  predicate Consistent(state: QualificationState, result: QualificationResult) {
    && (state == Qualified <==> result == Passed)
    && (state == Aborted <==> result == ResultAborted)
    && ((state == PrecheckFailed || state == Unresolved || state == ReconciliationRequired) <==> result == Inconclusive)
    && (state == Disqualified ==> result == Failed)
    && (result == Failed ==> (state == Disqualified || state == Rejected))
  }

  /** The registry as a graph: what row `id` does to rank and result, and which
    * rows reach or leave the states that matter for safety. */
  predicate RowSound(id: nat, r: TransitionSpec) {
    && (r.source.None? <==> r.anyNonTerminal || r.anyActiveRecovery)
    && (r.anyNonTerminal <==> id == DISQUALIFY_ROW || id == ABORT_ROW)
    && (r.anyActiveRecovery <==> id == RESTART_ROW)
    && (r.destination.None? <==> id == RESTART_ROW)
    && (r.eventType == PrechecksFailed <==> id == 3)
    && (r.eventType == OperatorApproved <==> id == 6)
    && (r.eventType == SubmissionStarted <==> id == 9)
    && (r.eventType == BrokerRequestSent <==> id == 10)
    && (r.eventType == ProcessRestarted <==> id == RESTART_ROW)
    && (r.effect == Some(SendBrokerRequest) <==> id == 10)
    && (id == 9 ==> r.source == Some(Approved))
    && (id == 10 ==> r.source == Some(SubmissionPending) && r.destination == Some(Submitted))
    && (r.destination.Some? ==>
          var to := r.destination.value;
          && Consistent(to, r.result)
          && (to == Approved <==> id == 6)
          && (to == SubmissionPending <==> id == 9)
          && (to == Cancelled <==> id == 17 || id == 26)
          && (to == Qualified <==> 29 <= id <= 32)
          && (r.source.None? ==> to == if id == ABORT_ROW then Aborted else Disqualified)
          && (r.source.Some? ==> SourceSound(id, r.source.value, r.eventType, to)))
  }

  predicate SourceSound(id: nat, from: QualificationState, event: EventType, to: QualificationState) {
    && !IsTerminal(from)
    && (if id == 3 then Rank(to) == Rank(from) + 1 == 13 else Rank(to) < Rank(from))
    && (from == Unresolved ==> to == ReconciliationRequired)
    && (from == ReconciliationRequired && event != ReconciliationResolved ==> to == Disqualified)
    && (event == ReconciliationResolved ==> from == ReconciliationRequired)
  }

  /** Rows 1 to 4: prechecks. */
  function PrecheckRow(id: nat): (r: TransitionSpec)
    requires 1 <= id <= 4
    ensures RowSound(id, r)
  {
    match id
    case 1 => Spec(NotStarted, StartQualification, PrecheckPending, None, SafeLocalRetry, Pending)
    case 2 => Spec(PrecheckPending, PrechecksPassed, ReadyForApproval, None, SafeLocalRetry, Pending)
    case 3 => Spec(PrecheckPending, PrechecksFailed, PrecheckFailed, Some(BlockConsequentialAction),
                   RetryAfterCorrection, Inconclusive)
    case _ => Spec(PrecheckFailed, StartQualification, PrecheckPending, None, SafeLocalRetry, Pending)
  }

  /** Rows 5 to 8: operator approval. */
  function ApprovalRow(id: nat): (r: TransitionSpec)
    requires 5 <= id <= 8
    ensures RowSound(id, r)
  {
    match id
    case 5 => Spec(ReadyForApproval, ApprovalRequested, ApprovalPending, Some(RequestOperatorApproval),
                   SafeLocalRetry, Pending)
    case 6 => Spec(ApprovalPending, OperatorApproved, Approved, Some(RecordOperatorApproval), SafeLocalRetry, Pending)
    case 7 => Spec(ApprovalPending, OperatorRejected, Rejected, Some(BlockConsequentialAction),
                   NonRetryableSameRun, Failed)
    case _ => Spec(ReadyForApproval, OperatorRejected, Rejected, Some(BlockConsequentialAction),
                   NonRetryableSameRun, Failed)
  }

  /** Rows 9 to 12: submission, acknowledgment and partial fill. */
  function SubmissionRow(id: nat): (r: TransitionSpec)
    requires 9 <= id <= 12
    ensures RowSound(id, r)
  {
    match id
    case 9 => Spec(Approved, SubmissionStarted, SubmissionPending, Some(PrepareBrokerSubmission),
                   SafeLocalRetry, Pending)
    case 10 => Spec(SubmissionPending, BrokerRequestSent, Submitted, Some(SendBrokerRequest),
                    UnsafeExternalRetry, Pending)
    case 11 => Spec(Submitted, BrokerAcknowledged, Acknowledged, Some(RecordBrokerReference), SafeEventReplay, Pending)
    case _ => Spec(Acknowledged, BrokerPartialFillReported, PartiallyFilled, Some(RecordBrokerLifecycle),
                   SafeEventReplay, Pending)
  }

  /** Rows 13 to 17: fills and cancellation. */
  function LifecycleRow(id: nat): (r: TransitionSpec)
    requires 13 <= id <= 17
    ensures RowSound(id, r)
  {
    match id
    case 13 => Spec(Acknowledged, BrokerFillReported, Filled, Some(RecordBrokerLifecycle), SafeEventReplay, Pending)
    case 14 => Spec(PartiallyFilled, BrokerFillReported, Filled, Some(RecordBrokerLifecycle), SafeEventReplay, Pending)
    case 15 => Spec(Acknowledged, CancellationRequestedEvent, CancellationRequested,
                    Some(RequestBrokerCancellation), IdempotentExternalRetryOnly, Pending)
    case 16 => Spec(PartiallyFilled, CancellationRequestedEvent, CancellationRequested,
                    Some(RequestBrokerCancellation), IdempotentExternalRetryOnly, Pending)
    case _ => Spec(CancellationRequested, BrokerCancellationConfirmed, Cancelled, Some(RecordBrokerLifecycle),
                   SafeEventReplay, Pending)
  }

  /** Rows 18 to 23: rejection, expiry and timeout. */
  function FailureRow(id: nat): (r: TransitionSpec)
    requires 18 <= id <= 23
    ensures RowSound(id, r)
  {
    match id
    case 18 => Spec(Submitted, BrokerRejected, Rejected, Some(RecordBrokerLifecycle), SafeEventReplay, Pending)
    case 19 => Spec(Acknowledged, BrokerRejected, Rejected, Some(RecordBrokerLifecycle), SafeEventReplay, Pending)
    case 20 => Spec(Submitted, BrokerExpired, Expired, Some(RecordBrokerLifecycle), SafeEventReplay, Pending)
    case 21 => Spec(Acknowledged, BrokerExpired, Expired, Some(RecordBrokerLifecycle), SafeEventReplay, Pending)
    case 22 => Spec(Submitted, TimeoutDetected, Unresolved, Some(BlockConsequentialAction), SafeReadRetry, Inconclusive)
    case _ => Spec(SubmissionPending, TimeoutDetected, Unresolved, Some(BlockConsequentialAction),
                   ReconcileBeforeRetry, Inconclusive)
  }

  /** Rows 24 to 28: reconciliation. */
  function ReconciliationRow(id: nat): (r: TransitionSpec)
    requires 24 <= id <= 28
    ensures RowSound(id, r)
  {
    match id
    case 24 => Spec(Unresolved, ReconciliationStarted, ReconciliationRequired, Some(StartReconciliation),
                    SafeReadRetry, Inconclusive)
    case 25 => Spec(ReconciliationRequired, ReconciliationResolved, Acknowledged, Some(RecordBrokerReference),
                    SafeEventReplay, Pending)
    case 26 => Spec(ReconciliationRequired, ReconciliationResolved, Cancelled, Some(RecordBrokerLifecycle),
                    SafeEventReplay, Pending)
    case 27 => Spec(ReconciliationRequired, ReconciliationResolved, Rejected, Some(RecordBrokerLifecycle),
                    SafeEventReplay, Pending)
    case _ => Spec(ReconciliationRequired, QualificationCriteriaFailed, Disqualified,
                   Some(FinalizeQualification), NonRetryableSameRun, Failed)
  }

  /** Rows 29 to 35: final results, abort and restart. */
  function FinalRow(id: nat): (r: TransitionSpec)
    requires 29 <= id <= 35
    ensures RowSound(id, r)
  {
    match id
    case 29 => Spec(Acknowledged, QualificationCriteriaMet, Qualified, Some(FinalizeQualification),
                    NonRetryableSameRun, Passed)
    case 30 => Spec(Cancelled, QualificationCriteriaMet, Qualified, Some(FinalizeQualification),
                    NonRetryableSameRun, Passed)
    case 31 => Spec(Filled, QualificationCriteriaMet, Qualified, Some(FinalizeQualification),
                    NonRetryableSameRun, Passed)
    case 32 => Spec(Rejected, QualificationCriteriaMet, Qualified, Some(FinalizeQualification),
                    NonRetryableSameRun, Passed)
    case 33 => TransitionSpec(None, QualificationCriteriaFailed, Some(Disqualified),
                              Some(FinalizeQualification), NonRetryableSameRun, Failed, true, false)
    case 34 => TransitionSpec(None, AbortRequested, Some(Aborted), Some(BlockConsequentialAction),
                              NonRetryableSameRun, ResultAborted, true, false)
    case _ => TransitionSpec(None, ProcessRestarted, None, Some(ResumeOrRequireReconciliation),
                             SafeRecoveryReadRetry, Pending, false, true)
  }

  /** Row PQ-TRN-`id` of the registry. */
  function Row(id: nat): (r: TransitionSpec)
    requires IsRow(id)
    ensures RowSound(id, r)
  {
    if id <= 4 then PrecheckRow(id)
    else if id <= 8 then ApprovalRow(id)
    else if id <= 12 then SubmissionRow(id)
    else if id <= 17 then LifecycleRow(id)
    else if id <= 23 then FailureRow(id)
    else if id <= 28 then ReconciliationRow(id)
    else FinalRow(id)
  }

  /** The guards row PQ-TRN-`id` requires. */
  function RequiredGuards(id: nat): set<Guard>
    requires IsRow(id)
  {
    match id
    case 1 => {ScenarioAuthorized, PaperEnvironment}
    case 2 => {PaperEnvironment, BrokerSupported, ConfigurationValid, CredentialsAvailable, EvidenceAvailable}
    case 3 => {EvidenceAvailable}
    case 4 => {ScenarioAuthorized, PaperEnvironment}
    case 5 => {ApprovalSurfaceAvailable, EmergencyStopInactive}
    case 6 => {OperatorApprovalValid, PlanCurrent, EvidenceAvailable}
    case 7 => {OperatorRejectionCaptured}
    case 8 => {OperatorRejectionCaptured}
    case 9 => {ApprovalNotExpired, NoDuplicateKey, EmergencyStopInactive}
    case 10 => {BrokerCapabilityAvailable, NoDuplicateKey, PaperEnvironment}
    case 11 => {BrokerResponseMatches}
    case 12 => {PartialFillValid}
    case 13 => {FullFillEvidence}
    case 14 => {FullFillEvidence}
    case 15 => {CancellationSupported, NoTerminalBrokerState, EmergencyStopInactive}
    case 16 => {CancellationSupported, EmergencyStopInactive}
    case 17 => {CancellationConfirmationMatches}
    case 18 => {BrokerRejectionMatches}
    case 19 => {BrokerRejectionMatches}
    case 20 => {BrokerExpirationMatches}
    case 21 => {BrokerExpirationMatches}
    case 22 => {BrokerOutcomeUnknown}
    case 23 => {BrokerSendUncertain}
    case 24 => {ReadOnlyReconciliationAvailable}
    case 25 => {BrokerTruthFound, EvidenceAvailable}
    case 26 => {BrokerProvesCancellation, EvidenceAvailable}
    case 27 => {BrokerProvesRejectionOrNoOrder, EvidenceAvailable}
    case 28 => {ReconciliationFailedOrEvidenceIncomplete}
    case 29 => {ScenarioRequiresAckOnly, CriteriaEvidenceComplete}
    case 30 => {ScenarioRequiresCancellationCleanup, CriteriaEvidenceComplete}
    case 31 => {ScenarioRequiresFill, CriteriaEvidenceComplete}
    case 32 => {ScenarioRequiresRejection, CriteriaEvidenceComplete}
    case 33 => {CriteriaFailed}
    case 34 => {ActorAuthorizedToAbort, NoUnsafeBrokerEffectInProgress}
    case _ => {DurableStateAndEvidenceVerified}
  }

  function Effects(id: nat): seq<SideEffect>
    requires IsRow(id)
  {
    if Row(id).effect.Some? then [Row(id).effect.value] else []
  }

  predicate SourceMatches(id: nat, state: QualificationState)
    requires IsRow(id)
  {
    if Row(id).anyNonTerminal then
      !IsTerminal(state) && (id == DISQUALIFY_ROW ==> (state != Unresolved && state != ReconciliationRequired))
    else if Row(id).anyActiveRecovery then !IsTerminal(state)
    else Row(id).source == Some(state)
  }

  /** The row's event and source state fit. */
  predicate Candidate(id: nat, state: QualificationState, event: EventType) {
    IsRow(id) && Row(id).eventType == event && SourceMatches(id, state)
  }

  /** The row fits and every guard it requires is satisfied. */
  predicate Applies(id: nat, state: QualificationState, event: EventType, guards: set<Guard>) {
    Candidate(id, state, event) && RequiredGuards(id) <= guards
  }

  /** The rows from `id` on that fit the state and event, in registry order. */
  function Candidates(id: nat, state: QualificationState, event: EventType): seq<nat>
    decreases ROWS - id
  {
    if id > ROWS then []
    else (if Candidate(id, state, event) then [id] else []) + Candidates(id + 1, state, event)
  }

  predicate GuardsMet(id: nat, guards: set<Guard>) {
    IsRow(id) && RequiredGuards(id) <= guards
  }

  /** The rows among `ids` whose guards are all satisfied. */
  function Matches(ids: seq<nat>, guards: set<Guard>): seq<nat> {
    if ids == [] then []
    else (if GuardsMet(ids[0], guards) then [ids[0]] else []) + Matches(ids[1..], guards)
  }

  function Pick(candidates: seq<nat>, matches: seq<nat>): Result<Option<nat>, TransitionError> {
    if |matches| == 1 then Ok(Some(matches[0]))
    else if |matches| > 1 then Err(AmbiguousTransition)
    else if |candidates| == 1 then Ok(Some(candidates[0]))
    else if |candidates| > 1 then Err(GuardDisambiguationFailed)
    else Ok(None)
  }

  function FindTransition(state: QualificationState, event: EventType, guards: set<Guard>)
    : Result<Option<nat>, TransitionError>
  {
    var candidates := Candidates(1, state, event);
    Pick(candidates, Matches(candidates, guards))
  }

  /** A stored command with the same key is answered from its record, at the
    * run's present state, with its side effects removed. */
  function IdempotentReplay(run: PaperQualificationRun, event: QualificationEvent, ctx: TransitionContext)
    : Result<Option<TransitionDecision>, TransitionError>
  {
    if ctx.prior.None? || ctx.prior.value.key != event.key then Ok(None)
    else if ctx.prior.value.fingerprint != event.fingerprint then Err(IdempotencyConflict)
    else Ok(Some(ctx.prior.value.decision.(
      previousState := run.state,
      nextState := run.state,
      previousRevision := run.revision,
      nextRevision := run.revision,
      effects := [],
      replayed := true,
      reconciliationRequired := run.state == ReconciliationRequired)))
  }

  function DestinationState(id: nat, run: PaperQualificationRun, ctx: TransitionContext)
    : Option<QualificationState>
    requires IsRow(id)
  {
    if id == RESTART_ROW then
      Some(if ctx.recoveredState.Some? then ctx.recoveredState.value else run.state)
    else Row(id).destination
  }

  function StepResult(id: nat, run: PaperQualificationRun): QualificationResult
    requires IsRow(id)
  {
    if id == RESTART_ROW then run.result else Row(id).result
  }

  function Transition(run: PaperQualificationRun, event: QualificationEvent, ctx: TransitionContext)
    : Result<TransitionDecision, TransitionError>
  {
    var replay := IdempotentReplay(run, event, ctx);
    if replay.Err? then Err(replay.error)
    else if replay.value.Some? then Ok(replay.value.value)
    else if run.revision != ctx.expectedRevision then Err(StaleRevision)
    else if IsTerminal(run.state) then Err(TerminalState)
    else
      var found := FindTransition(run.state, event.eventType, ctx.guards);
      if found.Err? then Err(found.error)
      else if found.value.None? || !IsRow(found.value.value) then Err(InvalidTransition)
      else
        var id := found.value.value;
        var destination := DestinationState(id, run, ctx);
        if RequiredGuards(id) - ctx.guards != {} then Err(GuardMissing(RequiredGuards(id) - ctx.guards))
        else if destination.None? then Err(MissingDestination)
        else Ok(Decide(id, run, event, ctx, destination.value))
  }

  function Decide(id: nat, run: PaperQualificationRun, event: QualificationEvent, ctx: TransitionContext,
                  destination: QualificationState): TransitionDecision
    requires IsRow(id)
  {
    var reconcile := destination == ReconciliationRequired;
    var evidence := EvidenceIntent(
                      id, event.eventType, run.state, destination, run.runId, run.scenarioId, run.correlationId,
                      event.commandId, event.key, StepResult(id, run), event.actor, ctx.environment,
                      event.objectReference, run.revision, run.revision + 1, reconcile);
    TransitionDecision(id, run.state, destination, run.revision, run.revision + 1, StepResult(id, run),
                       Row(id).retry, Effects(id), [evidence], false, reconcile)
  }

  /** The run snapshot an accepted decision produces. */
  function ApplyTransition(run: PaperQualificationRun, d: TransitionDecision): PaperQualificationRun {
    run.(state := d.nextState, result := d.result, revision := d.nextRevision)
  }

  ghost predicate Increasing(ids: seq<nat>) {
    forall i, j :: 0 <= i < j < |ids| ==> ids[i] < ids[j]
  }

  lemma CandidateIsRow(state: QualificationState, event: EventType)
    ensures forall k :: Candidate(k, state, event) ==> IsRow(k)
  {
    hide Row, SourceMatches;
  }

  lemma {:induction false} CandidateMembers(id: nat, state: QualificationState, event: EventType)
    ensures forall k :: k in Candidates(id, state, event) <==> id <= k && Candidate(k, state, event)
    decreases ROWS - id
  {
    hide Candidate;
    if id <= ROWS {
      CandidateMembers(id + 1, state, event);
    } else {
      CandidateIsRow(state, event);
    }
  }

  lemma {:induction false} CandidatesIncrease(id: nat, state: QualificationState, event: EventType)
    ensures Increasing(Candidates(id, state, event))
    decreases ROWS - id
  {
    hide Candidate;
    if id <= ROWS {
      CandidatesIncrease(id + 1, state, event);
      CandidateMembers(id + 1, state, event);
      var rest := Candidates(id + 1, state, event);
      forall j | 0 <= j < |rest| ensures id < rest[j] {
        assert rest[j] in rest;
      }
    }
  }

  lemma {:induction false} MatchMembers(ids: seq<nat>, guards: set<Guard>)
    ensures forall k :: k in Matches(ids, guards) <==> k in ids && GuardsMet(k, guards)
  {
    hide GuardsMet;
    if ids != [] {
      MatchMembers(ids[1..], guards);
      assert ids == [ids[0]] + ids[1..];
    }
  }

  lemma {:induction false} MatchesIncrease(ids: seq<nat>, guards: set<Guard>)
    requires Increasing(ids)
    ensures Increasing(Matches(ids, guards))
  {
    hide GuardsMet;
    if ids != [] {
      var rest := Matches(ids[1..], guards);
      MatchesIncrease(ids[1..], guards);
      MatchMembers(ids[1..], guards);
      forall k | k in rest ensures ids[0] < k {
        var i :| 0 <= i < |ids[1..]| && ids[1..][i] == k;
        assert ids[i + 1] == k;
      }
      assert forall j :: 0 <= j < |rest| ==> rest[j] in rest;
    }
  }

  /** Row `id` applies and no other row does. */
  ghost predicate OnlyRow(id: nat, state: QualificationState, event: EventType, guards: set<Guard>) {
    Applies(id, state, event, guards) && forall j :: Applies(j, state, event, guards) ==> j == id
  }

  /** Picking yields a match exactly when that match is the only one. */
  lemma PickOnly(candidates: seq<nat>, matches: seq<nat>, id: nat)
    requires Increasing(matches)
    requires forall k :: k in matches ==> k in candidates
    ensures Pick(candidates, matches) == Ok(Some(id)) ==> id in candidates
    ensures Pick(candidates, matches) == Ok(Some(id)) && id in matches
            <==> id in matches && forall j :: j in matches ==> j == id
  {
    if |matches| > 0 {
      assert matches[0] in matches;
      if |matches| > 1 {
        assert matches[1] in matches && matches[0] < matches[1];
      }
    } else if |candidates| == 1 {
      assert candidates[0] in candidates;
    }
  }

  /** The lookup returns a row whose guards are met exactly when that row is the
    * only one that applies; whatever it returns fits the state and event. */
  lemma FindTransitionFinds(state: QualificationState, event: EventType, guards: set<Guard>, id: nat)
    ensures var f := FindTransition(state, event, guards);
            && (f == Ok(Some(id)) ==> Candidate(id, state, event))
            && (OnlyRow(id, state, event, guards) <==> f == Ok(Some(id)) && GuardsMet(id, guards))
  {
    hide Candidate, GuardsMet, Candidates, Matches, Pick, Increasing, Applies;
    var candidates := Candidates(1, state, event);
    var matches := Matches(candidates, guards);
    CandidateMembers(1, state, event);
    CandidatesIncrease(1, state, event);
    MatchMembers(candidates, guards);
    MatchesIncrease(candidates, guards);
    MatchesApply(state, event, guards);
    PickOnly(candidates, matches, id);
  }

  lemma MatchesApply(state: QualificationState, event: EventType, guards: set<Guard>)
    ensures forall k :: Applies(k, state, event, guards) <==> Candidate(k, state, event) && GuardsMet(k, guards)
    ensures forall k :: Candidate(k, state, event) ==> 1 <= k
  {
    hide Row, RequiredGuards, SourceMatches;
  }

  /** The context holds no record for this event's key. */
  predicate FirstUse(event: QualificationEvent, ctx: TransitionContext) {
    ctx.prior.None? || ctx.prior.value.key != event.key
  }

  /** A first use of a key is accepted exactly when the revision is current, the
    * run is open and one registry row alone applies; the decision then carries
    * that row's destination, result, effects and one evidence intent. */
  lemma AcceptedExactlyWhen(run: PaperQualificationRun, event: QualificationEvent, ctx: TransitionContext, id: nat)
    requires FirstUse(event, ctx)
    ensures var t := Transition(run, event, ctx);
            && (t.Ok? && t.value.transitionId == id
                <==> run.revision == ctx.expectedRevision && !IsTerminal(run.state)
                     && OnlyRow(id, run.state, event.eventType, ctx.guards))
            && (t.Ok? ==> StepFollowsRow(run, event, ctx, t.value))
  {
    hide Row, RequiredGuards, FindTransition;
    var f := FindTransition(run.state, event.eventType, ctx.guards);
    FindTransitionFinds(run.state, event.eventType, ctx.guards, id);
    if f.Ok? && f.value.Some? {
      FindTransitionFinds(run.state, event.eventType, ctx.guards, f.value.value);
      var required := RequiredGuards(f.value.value);
      assert forall g :: g in required && g !in ctx.guards ==> g in required - ctx.guards;
    }
  }

  /** What an accepted, first-time decision says about its row and its run. */
  ghost predicate StepFollowsRow(run: PaperQualificationRun, event: QualificationEvent, ctx: TransitionContext,
                                 d: TransitionDecision)
  {
    && Applies(d.transitionId, run.state, event.eventType, ctx.guards)
    && !IsTerminal(run.state)
    && !d.replayed
    && d.previousState == run.state
    && d.previousRevision == run.revision == ctx.expectedRevision
    && d.nextRevision == run.revision + 1
    && Some(d.nextState) == DestinationState(d.transitionId, run, ctx)
    && d.result == StepResult(d.transitionId, run)
    && d.effects == Effects(d.transitionId)
    && |d.evidence| == 1
    && d.evidence[0].runId == run.runId
    && d.evidence[0].transitionId == d.transitionId
    && d.evidence[0].source == run.state
    && d.evidence[0].destination == d.nextState
    && d.evidence[0].previousRevision == run.revision
    && d.evidence[0].nextRevision == run.revision + 1
    && d.evidence[0].commandId == event.commandId
    && d.evidence[0].key == event.key
  }

  /** The registry read the other way round: the one row that can serve an event
    * in a state, for every event but RECONCILIATION_RESOLVED. */
  function RowFor(state: QualificationState, event: EventType): nat {
    match event
    case StartQualification => if state == NotStarted then 1 else 4
    case PrechecksPassed => 2
    case PrechecksFailed => 3
    case ApprovalRequested => 5
    case OperatorApproved => 6
    case OperatorRejected => if state == ApprovalPending then 7 else 8
    case SubmissionStarted => 9
    case BrokerRequestSent => 10
    case BrokerAcknowledged => 11
    case BrokerPartialFillReported => 12
    case BrokerFillReported => if state == Acknowledged then 13 else 14
    case CancellationRequestedEvent => if state == Acknowledged then 15 else 16
    case BrokerCancellationConfirmed => 17
    case BrokerRejected => if state == Submitted then 18 else 19
    case BrokerExpired => if state == Submitted then 20 else 21
    case TimeoutDetected => if state == Submitted then 22 else 23
    case ReconciliationStarted => 24
    case ReconciliationResolved => 0
    case QualificationCriteriaMet =>
      if state == Acknowledged then 29 else if state == Cancelled then 30 else if state == Filled then 31 else 32
    case QualificationCriteriaFailed => if state == ReconciliationRequired then 28 else 33
    case AbortRequested => 34
    case ProcessRestarted => 35
  }

  /** Only a reconciliation outcome can be claimed by several rows, and then by
    * rows 25 to 27; every other state and event has the row `RowFor` names. */
  lemma RowIsDetermined(id: nat, state: QualificationState, event: EventType)
    requires Candidate(id, state, event)
    ensures event != ReconciliationResolved ==> id == RowFor(state, event)
    ensures event == ReconciliationResolved ==> state == ReconciliationRequired && 25 <= id <= 27
  {
    if id <= 17 {
      EarlyRowIsDetermined(id, state, event);
    } else {
      LateRowIsDetermined(id, state, event);
    }
  }

  lemma EarlyRowIsDetermined(id: nat, state: QualificationState, event: EventType)
    requires Candidate(id, state, event) && id <= 17
    ensures event != ReconciliationResolved && id == RowFor(state, event)
  {
    if id <= 8 {
      FirstRowsAreDetermined(id, state, event);
    } else {
      MiddleRowsAreDetermined(id, state, event);
    }
  }

  lemma FirstRowsAreDetermined(id: nat, state: QualificationState, event: EventType)
    requires Candidate(id, state, event) && id <= 8
    ensures event != ReconciliationResolved && id == RowFor(state, event)
  {
    hide RowSound;
  }

  lemma MiddleRowsAreDetermined(id: nat, state: QualificationState, event: EventType)
    requires Candidate(id, state, event) && 9 <= id <= 17
    ensures event != ReconciliationResolved && id == RowFor(state, event)
  {
    hide RowSound;
  }

  lemma LateRowIsDetermined(id: nat, state: QualificationState, event: EventType)
    requires Candidate(id, state, event) && id > 17
    ensures event != ReconciliationResolved ==> id == RowFor(state, event)
    ensures event == ReconciliationResolved ==> state == ReconciliationRequired && 25 <= id <= 27
  {
    if id <= 26 {
      UncertainRowsAreDetermined(id, state, event);
    } else {
      FinalRowsAreDetermined(id, state, event);
    }
  }

  lemma UncertainRowsAreDetermined(id: nat, state: QualificationState, event: EventType)
    requires Candidate(id, state, event) && 18 <= id <= 26
    ensures event != ReconciliationResolved ==> id == RowFor(state, event)
    ensures event == ReconciliationResolved ==> state == ReconciliationRequired && 25 <= id
  {
    hide RowSound;
  }

  lemma FinalRowsAreDetermined(id: nat, state: QualificationState, event: EventType)
    requires Candidate(id, state, event) && 27 <= id
    ensures event != ReconciliationResolved ==> id == RowFor(state, event)
    ensures event == ReconciliationResolved ==> state == ReconciliationRequired && id == 27
  {
    hide RowSound;
  }

  /** The answer to a replayed command never acts: no effect, no state change. It
    * repeats what was decided and recorded the first time, seen from the run's
    * present state; a key reused with other content is a conflict. */
  lemma ReplayIsInert(run: PaperQualificationRun, event: QualificationEvent, ctx: TransitionContext)
    requires !FirstUse(event, ctx)
    ensures var t := Transition(run, event, ctx);
            if ctx.prior.value.fingerprint == event.fingerprint then
              && t.Ok? && t.value.replayed && t.value.effects == []
              && t.value.nextState == run.state && t.value.nextRevision == run.revision
              && t.value.previousState == run.state && t.value.previousRevision == run.revision
              && (t.value.reconciliationRequired <==> run.state == ReconciliationRequired)
              && var first := ctx.prior.value.decision;
                 && t.value.transitionId == first.transitionId && t.value.result == first.result
                 && t.value.retry == first.retry && t.value.evidence == first.evidence
            else t == Err(IdempotencyConflict)
  {
  }
}
