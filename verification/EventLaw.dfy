/** The protocol read by event instead of by registry row: where each event is
  * legal, under which guards, and what it does
  * (volcanoes/application/qualification/state_machine.py:415-860). The registry and
  * its lookup are proved to accept exactly what this law allows, and the law is
  * carried over whole histories.
  */
module EventLaw {
  import opened Wrappers
  import opened QualificationContracts
  import opened StateMachine
  import opened RunChain

  /** The states in which an event has a place. */
  predicate Legal(event: EventType, from: QualificationState) {
    match event
    case StartQualification => from == NotStarted || from == PrecheckFailed
    case PrechecksPassed => from == PrecheckPending
    case PrechecksFailed => from == PrecheckPending
    case ApprovalRequested => from == ReadyForApproval
    case OperatorApproved => from == ApprovalPending
    case OperatorRejected => from == ApprovalPending || from == ReadyForApproval
    case SubmissionStarted => from == Approved
    case BrokerRequestSent => from == SubmissionPending
    case BrokerAcknowledged => from == Submitted
    case BrokerPartialFillReported => from == Acknowledged
    case BrokerFillReported => from == Acknowledged || from == PartiallyFilled
    case CancellationRequestedEvent => from == Acknowledged || from == PartiallyFilled
    case BrokerCancellationConfirmed => from == CancellationRequested
    case BrokerRejected => from == Submitted || from == Acknowledged
    case BrokerExpired => from == Submitted || from == Acknowledged
    case TimeoutDetected => from == Submitted || from == SubmissionPending
    case ReconciliationStarted => from == Unresolved
    case ReconciliationResolved => from == ReconciliationRequired
    case QualificationCriteriaMet => from == Acknowledged || from == Cancelled || from == Filled || from == Rejected
    case QualificationCriteriaFailed => !IsTerminal(from) && from != Unresolved
    case AbortRequested => !IsTerminal(from)
    case ProcessRestarted => !IsTerminal(from)
  }

  /** What the command must vouch for; a reconciliation vouches for its outcome. */
  function Demanded(event: EventType, from: QualificationState): set<Guard> {
    match event
    case StartQualification => {ScenarioAuthorized, PaperEnvironment}
    case PrechecksPassed =>
      {PaperEnvironment, BrokerSupported, ConfigurationValid, CredentialsAvailable, EvidenceAvailable}
    case PrechecksFailed => {EvidenceAvailable}
    case ApprovalRequested => {ApprovalSurfaceAvailable, EmergencyStopInactive}
    case OperatorApproved => {OperatorApprovalValid, PlanCurrent, EvidenceAvailable}
    case OperatorRejected => {OperatorRejectionCaptured}
    case SubmissionStarted => {ApprovalNotExpired, NoDuplicateKey, EmergencyStopInactive}
    case BrokerRequestSent => {BrokerCapabilityAvailable, NoDuplicateKey, PaperEnvironment}
    case BrokerAcknowledged => {BrokerResponseMatches}
    case BrokerPartialFillReported => {PartialFillValid}
    case BrokerFillReported => {FullFillEvidence}
    case CancellationRequestedEvent =>
      {CancellationSupported, EmergencyStopInactive} + if from == Acknowledged then {NoTerminalBrokerState} else {}
    case BrokerCancellationConfirmed => {CancellationConfirmationMatches}
    case BrokerRejected => {BrokerRejectionMatches}
    case BrokerExpired => {BrokerExpirationMatches}
    case TimeoutDetected => if from == Submitted then {BrokerOutcomeUnknown} else {BrokerSendUncertain}
    case ReconciliationStarted => {ReadOnlyReconciliationAvailable}
    case ReconciliationResolved => {EvidenceAvailable}
    case QualificationCriteriaMet => {CriteriaEvidenceComplete, ScenarioRequires(from)}
    case QualificationCriteriaFailed =>
      {if from == ReconciliationRequired then ReconciliationFailedOrEvidenceIncomplete else CriteriaFailed}
    case AbortRequested => {ActorAuthorizedToAbort, NoUnsafeBrokerEffectInProgress}
    case ProcessRestarted => {DurableStateAndEvidenceVerified}
  }

  /** The order outcome a scenario must have asked for to qualify from it. */
  function ScenarioRequires(from: QualificationState): Guard {
    if from == Filled then ScenarioRequiresFill
    else if from == Cancelled then ScenarioRequiresCancellationCleanup
    else if from == Rejected then ScenarioRequiresRejection
    else ScenarioRequiresAckOnly
  }

  /** What a reconciliation has to prove to end in a state. */
  function Proof(to: QualificationState): Guard {
    if to == Cancelled then BrokerProvesCancellation
    else if to == Rejected then BrokerProvesRejectionOrNoOrder
    else BrokerTruthFound
  }

  /** Where an event other than a restart leads; a reconciliation leads to one of
    * three states. */
  predicate LeadsTo(event: EventType, to: QualificationState) {
    match event
    case StartQualification => to == PrecheckPending
    case PrechecksPassed => to == ReadyForApproval
    case PrechecksFailed => to == PrecheckFailed
    case ApprovalRequested => to == ApprovalPending
    case OperatorApproved => to == Approved
    case OperatorRejected => to == Rejected
    case SubmissionStarted => to == SubmissionPending
    case BrokerRequestSent => to == Submitted
    case BrokerAcknowledged => to == Acknowledged
    case BrokerPartialFillReported => to == PartiallyFilled
    case BrokerFillReported => to == Filled
    case CancellationRequestedEvent => to == CancellationRequested
    case BrokerCancellationConfirmed => to == Cancelled
    case BrokerRejected => to == Rejected
    case BrokerExpired => to == Expired
    case TimeoutDetected => to == Unresolved
    case ReconciliationStarted => to == ReconciliationRequired
    case ReconciliationResolved => to == Acknowledged || to == Cancelled || to == Rejected
    case QualificationCriteriaMet => to == Qualified
    case QualificationCriteriaFailed => to == Disqualified
    case AbortRequested => to == Aborted
    case ProcessRestarted => true
  }

  /** The result recorded with the new state. */
  function ResultOf(event: EventType, to: QualificationState): QualificationResult {
    if to == Qualified then Passed
    else if to == Aborted then ResultAborted
    else if to == Disqualified || event == OperatorRejected then Failed
    else if to == PrecheckFailed || to == Unresolved || to == ReconciliationRequired then Inconclusive
    else Pending
  }

  /** The one side effect proposed with the new state, if any. */
  function EffectOf(event: EventType, to: QualificationState): Option<SideEffect> {
    match event
    case StartQualification => None
    case PrechecksPassed => None
    case ApprovalRequested => Some(RequestOperatorApproval)
    case OperatorApproved => Some(RecordOperatorApproval)
    case SubmissionStarted => Some(PrepareBrokerSubmission)
    case BrokerRequestSent => Some(SendBrokerRequest)
    case BrokerAcknowledged => Some(RecordBrokerReference)
    case CancellationRequestedEvent => Some(RequestBrokerCancellation)
    case ReconciliationStarted => Some(StartReconciliation)
    case ReconciliationResolved => Some(if to == Acknowledged then RecordBrokerReference else RecordBrokerLifecycle)
    case QualificationCriteriaMet => Some(FinalizeQualification)
    case QualificationCriteriaFailed => Some(FinalizeQualification)
    case ProcessRestarted => Some(ResumeOrRequireReconciliation)
    case PrechecksFailed => Some(BlockConsequentialAction)
    case OperatorRejected => Some(BlockConsequentialAction)
    case TimeoutDetected => Some(BlockConsequentialAction)
    case AbortRequested => Some(BlockConsequentialAction)
    case _ => Some(RecordBrokerLifecycle)
  }

  /** How a command that was answered so may be retried. */
  function RetryOf(event: EventType, from: QualificationState): RetryClassification {
    match event
    case PrechecksFailed => RetryAfterCorrection
    case OperatorRejected => NonRetryableSameRun
    case QualificationCriteriaMet => NonRetryableSameRun
    case QualificationCriteriaFailed => NonRetryableSameRun
    case AbortRequested => NonRetryableSameRun
    case BrokerRequestSent => UnsafeExternalRetry
    case CancellationRequestedEvent => IdempotentExternalRetryOnly
    case TimeoutDetected => if from == Submitted then SafeReadRetry else ReconcileBeforeRetry
    case ReconciliationStarted => SafeReadRetry
    case ProcessRestarted => SafeRecoveryReadRetry
    case StartQualification => SafeLocalRetry
    case PrechecksPassed => SafeLocalRetry
    case ApprovalRequested => SafeLocalRetry
    case OperatorApproved => SafeLocalRetry
    case SubmissionStarted => SafeLocalRetry
    case _ => SafeEventReplay
  }

  // ---- The registry obeys the law ------------------------------------------------

  /** What a row must do in a state where it fits. */
  ghost predicate Obeys(id: nat, from: QualificationState, event: EventType)
    requires IsRow(id)
  {
    var row := Row(id);
    && Legal(event, from)
    && RequiredGuards(id) == Demanded(event, from)
                             + (if event == ReconciliationResolved && row.destination.Some?
                                then {Proof(row.destination.value)} else {})
    && row.retry == RetryOf(event, from)
    && (row.destination.None? <==> event == ProcessRestarted)
    && (row.destination.None? ==> row.effect == EffectOf(event, from))
    && (row.destination.Some? ==>
          var to := row.destination.value;
          LeadsTo(event, to) && row.result == ResultOf(event, to) && row.effect == EffectOf(event, to))
  }

  lemma StartRowsObey(id: nat, from: QualificationState, event: EventType)
    requires Candidate(id, from, event) && 1 <= id <= 2
    ensures Obeys(id, from, event)
  {
    hide RowSound;
  }

  lemma PrecheckRowsObey(id: nat, from: QualificationState, event: EventType)
    requires Candidate(id, from, event) && 3 <= id <= 4
    ensures Obeys(id, from, event)
  {
    hide RowSound;
  }

  lemma ApprovalRowsObey(id: nat, from: QualificationState, event: EventType)
    requires Candidate(id, from, event) && 5 <= id <= 8
    ensures Obeys(id, from, event)
  {
    hide RowSound;
  }

  lemma SubmissionRowsObey(id: nat, from: QualificationState, event: EventType)
    requires Candidate(id, from, event) && 9 <= id <= 10
    ensures Obeys(id, from, event)
  {
    hide RowSound;
  }

  lemma AcknowledgmentRowsObey(id: nat, from: QualificationState, event: EventType)
    requires Candidate(id, from, event) && 11 <= id <= 12
    ensures Obeys(id, from, event)
  {
    hide RowSound;
  }

  lemma FillRowsObey(id: nat, from: QualificationState, event: EventType)
    requires Candidate(id, from, event) && 13 <= id <= 14
    ensures Obeys(id, from, event)
  {
    hide RowSound;
  }

  lemma CancellationRowsObey(id: nat, from: QualificationState, event: EventType)
    requires Candidate(id, from, event) && 15 <= id <= 17
    ensures Obeys(id, from, event)
  {
    hide RowSound;
  }

  lemma RejectionRowsObey(id: nat, from: QualificationState, event: EventType)
    requires Candidate(id, from, event) && 18 <= id <= 19
    ensures Obeys(id, from, event)
  {
    hide RowSound;
  }

  lemma ExpiryRowsObey(id: nat, from: QualificationState, event: EventType)
    requires Candidate(id, from, event) && 20 <= id <= 21
    ensures Obeys(id, from, event)
  {
    hide RowSound;
  }

  lemma TimeoutRowsObey(id: nat, from: QualificationState, event: EventType)
    requires Candidate(id, from, event) && 22 <= id <= 24
    ensures Obeys(id, from, event)
  {
    hide RowSound;
  }

  lemma ReconciliationRowsObey(id: nat, from: QualificationState, event: EventType)
    requires Candidate(id, from, event) && 25 <= id <= 27
    ensures Obeys(id, from, event)
  {
    hide RowSound;
  }

  lemma QualificationRowsObey(id: nat, from: QualificationState, event: EventType)
    requires Candidate(id, from, event) && 28 <= id <= 30
    ensures Obeys(id, from, event)
  {
    hide RowSound;
  }

  lemma QualificationByOrderRowsObey(id: nat, from: QualificationState, event: EventType)
    requires Candidate(id, from, event) && 31 <= id <= 32
    ensures Obeys(id, from, event)
  {
    hide RowSound;
  }

  lemma ClosingRowsObey(id: nat, from: QualificationState, event: EventType)
    requires Candidate(id, from, event) && 33 <= id <= 35
    ensures Obeys(id, from, event)
  {
    hide RowSound;
  }

  /** Every row, wherever it fits, does what the law says of its event. */
  lemma RowsObey(id: nat, from: QualificationState, event: EventType)
    requires Candidate(id, from, event)
    ensures Obeys(id, from, event)
  {
    hide Candidate, Obeys;
    CandidateIsRow(from, event);
    if id <= 2 {
      StartRowsObey(id, from, event);
    } else if id <= 4 {
      PrecheckRowsObey(id, from, event);
    } else if id <= 8 {
      ApprovalRowsObey(id, from, event);
    } else if id <= 10 {
      SubmissionRowsObey(id, from, event);
    } else if id <= 12 {
      AcknowledgmentRowsObey(id, from, event);
    } else if id <= 14 {
      FillRowsObey(id, from, event);
    } else if id <= 17 {
      CancellationRowsObey(id, from, event);
    } else if id <= 19 {
      RejectionRowsObey(id, from, event);
    } else if id <= 21 {
      ExpiryRowsObey(id, from, event);
    } else if id <= 24 {
      TimeoutRowsObey(id, from, event);
    } else if id <= 27 {
      ReconciliationRowsObey(id, from, event);
    } else if id <= 30 {
      QualificationRowsObey(id, from, event);
    } else if id <= 32 {
      QualificationByOrderRowsObey(id, from, event);
    } else {
      ClosingRowsObey(id, from, event);
    }
  }

  // ---- Accepted exactly by the law -------------------------------------------------

  /** Events up to the broker's fill. */
  predicate IsEarly(event: EventType) {
    event.StartQualification? || event.PrechecksPassed? || event.PrechecksFailed? || event.ApprovalRequested?
    || event.OperatorApproved? || event.OperatorRejected? || event.SubmissionStarted? || event.BrokerRequestSent?
    || event.BrokerAcknowledged? || event.BrokerPartialFillReported? || event.BrokerFillReported?
  }

  lemma EarlyLegalHasRow(event: EventType, from: QualificationState)
    requires Legal(event, from) && IsEarly(event)
    ensures Candidate(RowFor(from, event), from, event)
  {
    hide RowSound;
  }

  lemma LateLegalHasRow(event: EventType, from: QualificationState)
    requires Legal(event, from) && !IsEarly(event) && event != ReconciliationResolved
    ensures Candidate(RowFor(from, event), from, event)
  {
    hide RowSound;
  }

  /** Every legal event has its row. */
  lemma LegalIffRow(event: EventType, from: QualificationState, id: nat)
    requires event != ReconciliationResolved
    ensures Candidate(id, from, event) <==> Legal(event, from) && id == RowFor(from, event)
  {
    hide Candidate, Legal, RowFor, Row, RequiredGuards;
    if Candidate(id, from, event) {
      RowsObey(id, from, event);
      CandidateIsRow(from, event);
      RowIsDetermined(id, from, event);
    }
    if Legal(event, from) {
      if IsEarly(event) {
        EarlyLegalHasRow(event, from);
      } else {
        LateLegalHasRow(event, from);
      }
    }
  }

  lemma ReconciliationCandidates(id: nat, from: QualificationState)
    ensures Candidate(id, from, ReconciliationResolved) <==> from == ReconciliationRequired && 25 <= id <= 27
  {
    hide Row, RequiredGuards;
    if Candidate(id, from, ReconciliationResolved) {
      RowIsDetermined(id, from, ReconciliationResolved);
    }
    if from == ReconciliationRequired && 25 <= id <= 27 {
      ReconciliationRows(id);
    }
  }

  lemma ReconciliationRows(id: nat)
    requires 25 <= id <= 27
    ensures Candidate(id, ReconciliationRequired, ReconciliationResolved)
    ensures Row(id).destination == Some(if id == 25 then Acknowledged else if id == 26 then Cancelled else Rejected)
  {
    hide RowSound;
  }

  lemma NoMembers(s: seq<nat>)
    requires forall k :: k !in s
    ensures s == []
  {
    if s != [] {
      IsMember(s, 0);
    }
  }

  lemma IsMember(s: seq<nat>, i: nat)
    requires i < |s|
    ensures s[i] in s
  {
  }

  lemma SoleMember(s: seq<nat>, id: nat)
    requires Increasing(s) && forall k :: k in s <==> k == id
    ensures s == [id]
  {
    if |s| > 1 {
      IsMember(s, 0);
      IsMember(s, 1);
    }
    assert id in s;
  }

  /** What the lookup finds, for every event but a reconciliation's outcome: the one
    * row of a legal event, whatever its guards, and nothing for any other. */
  lemma FoundByLaw(state: QualificationState, event: EventType, guards: set<Guard>)
    requires event != ReconciliationResolved
    ensures FindTransition(state, event, guards)
            == Ok(if Legal(event, state) then Some(RowFor(state, event)) else None)
  {
    hide Candidate, Legal, RowFor, Candidates, Increasing, GuardsMet;
    var candidates := Candidates(1, state, event);
    CandidateMembers(1, state, event);
    CandidatesIncrease(1, state, event);
    CandidateIsRow(state, event);
    forall k ensures k in candidates <==> Legal(event, state) && k == RowFor(state, event) {
      LegalIffRow(event, state, k);
    }
    if Legal(event, state) {
      SoleMember(candidates, RowFor(state, event));
      assert Matches([], guards) == [];
      assert [RowFor(state, event)][1..] == [];
    } else {
      NoMembers(candidates);
    }
  }

  /** The verdict on a first-use command, by the law alone: every rejection and its
    * reason, and everything an acceptance decides. */
  ghost predicate DecidedByLaw(run: PaperQualificationRun, event: QualificationEvent, ctx: TransitionContext) {
    var t := Transition(run, event, ctx);
    var kind := event.eventType;
    var demanded := Demanded(kind, run.state);
    if run.revision != ctx.expectedRevision then t == Err(StaleRevision)
    else if IsTerminal(run.state) then t == Err(TerminalState)
    else if !Legal(kind, run.state) then t == Err(InvalidTransition)
    else if !(demanded <= ctx.guards) then t == Err(GuardMissing(demanded - ctx.guards))
    else t.Ok? && AcceptedByLaw(run, event, ctx, t.value)
  }

  ghost predicate AcceptedByLaw(run: PaperQualificationRun, event: QualificationEvent, ctx: TransitionContext,
                                d: TransitionDecision)
  {
    var kind := event.eventType;
    && !d.replayed && d.previousState == run.state && d.previousRevision == run.revision
    && d.nextRevision == run.revision + 1
    && (if kind == ProcessRestarted then
          && d.nextState == (if ctx.recoveredState.Some? then ctx.recoveredState.value else run.state)
          && d.result == run.result && d.effects == [ResumeOrRequireReconciliation]
        else
          && LeadsTo(kind, d.nextState) && d.result == ResultOf(kind, d.nextState)
          && d.effects == (if EffectOf(kind, d.nextState).Some? then [EffectOf(kind, d.nextState).value] else []))
    && d.retry == RetryOf(kind, run.state)
    && d.reconciliationRequired == (d.nextState == ReconciliationRequired)
    && d.evidence == [EvidenceIntent(d.transitionId, kind, run.state, d.nextState, run.runId, run.scenarioId,
                                     run.correlationId, event.commandId, event.key, d.result, event.actor,
                                     ctx.environment, event.objectReference, run.revision, run.revision + 1,
                                     d.nextState == ReconciliationRequired)]
  }

  lemma LegalIsOpen(event: EventType, from: QualificationState)
    requires Legal(event, from)
    ensures !IsTerminal(from)
  {
  }

  lemma RowDecides(id: nat, run: PaperQualificationRun, event: QualificationEvent, ctx: TransitionContext)
    requires Candidate(id, run.state, event.eventType) && IsRow(id) && DestinationState(id, run, ctx).Some?
    ensures AcceptedByLaw(run, event, ctx, Decide(id, run, event, ctx, DestinationState(id, run, ctx).value))
  {
    hide Candidate, Row, Legal, RequiredGuards, Demanded, ResultOf, EffectOf, RetryOf, LeadsTo;
    RowsObey(id, run.state, event.eventType);
    RestartIsRestart(id, run.state, event.eventType);
    RestartEffect(run.state);
  }

  lemma RestartEffect(from: QualificationState)
    ensures EffectOf(ProcessRestarted, from) == Some(ResumeOrRequireReconciliation)
  {
  }

  lemma RestartIsRestart(id: nat, from: QualificationState, event: EventType)
    requires Candidate(id, from, event)
    ensures IsRow(id) && (id == RESTART_ROW <==> event == ProcessRestarted)
    ensures Row(id).destination.None? <==> id == RESTART_ROW
  {
    hide Row, RequiredGuards;
    assert RowSound(id, Row(id));
  }

  /** A first-use command of any event but a reconciliation's outcome is accepted
    * exactly when it is current, legal in the run's state and vouched for; every
    * other one is rejected for the first of these reasons. */
  lemma CommandDecidedByLaw(run: PaperQualificationRun, event: QualificationEvent, ctx: TransitionContext)
    requires FirstUse(event, ctx) && event.eventType != ReconciliationResolved
    ensures DecidedByLaw(run, event, ctx)
  {
    hide Row, Legal, RequiredGuards, Demanded, FindTransition, RowFor, Candidate, Decide, AcceptedByLaw,
         DestinationState;
    FoundByLaw(run.state, event.eventType, ctx.guards);
    if Legal(event.eventType, run.state) {
      var id := RowFor(run.state, event.eventType);
      LegalIffRow(event.eventType, run.state, id);
      CandidateIsRow(run.state, event.eventType);
      RowsObey(id, run.state, event.eventType);
      HasDestination(id, run, event, ctx);
      GuardsByLaw(id, run.state, event.eventType);
      SubsetIsNothingMissing(Demanded(event.eventType, run.state), ctx.guards);
      LegalIsOpen(event.eventType, run.state);
      RowDecides(id, run, event, ctx);
    }
  }

  lemma GuardsByLaw(id: nat, from: QualificationState, event: EventType)
    requires Candidate(id, from, event) && event != ReconciliationResolved
    ensures IsRow(id) && RequiredGuards(id) == Demanded(event, from)
  {
    hide Row, RequiredGuards, Demanded, Legal;
    RowsObey(id, from, event);
  }

  lemma DecidesDestination(id: nat, run: PaperQualificationRun, event: QualificationEvent, ctx: TransitionContext,
                           to: QualificationState)
    requires IsRow(id)
    ensures Decide(id, run, event, ctx, to).nextState == to
  {
  }

  lemma HasDestination(id: nat, run: PaperQualificationRun, event: QualificationEvent, ctx: TransitionContext)
    requires Candidate(id, run.state, event.eventType)
    ensures IsRow(id) && DestinationState(id, run, ctx).Some?
  {
    hide Row, RequiredGuards;
    RestartIsRestart(id, run.state, event.eventType);
  }

  lemma SubsetIsNothingMissing(demanded: set<Guard>, guards: set<Guard>)
    ensures demanded <= guards <==> demanded - guards == {}
  {
    if demanded - guards == {} {
      forall g | g in demanded ensures g in guards {
        assert g !in demanded - guards;
      }
    }
  }

  /** The outcomes of a reconciliation that a command proves. */
  ghost predicate Proves(guards: set<Guard>, to: QualificationState) {
    LeadsTo(ReconciliationResolved, to) && EvidenceAvailable in guards && Proof(to) in guards
  }

  /** What the lookup finds for a reconciliation's outcome. */
  lemma ReconciliationFound(state: QualificationState, guards: set<Guard>)
    ensures var f := FindTransition(state, ReconciliationResolved, guards);
            if state != ReconciliationRequired then f == Ok(None)
            else
              && (f.Ok? ==> f.value.Some? && 25 <= f.value.value <= 27 && GuardsMet(f.value.value, guards)
                            && forall id :: 25 <= id <= 27 && GuardsMet(id, guards) ==> id == f.value.value)
              && (f == Err(AmbiguousTransition) <==>
                    exists i, j :: i != j && 25 <= i <= 27 && 25 <= j <= 27
                                && GuardsMet(i, guards) && GuardsMet(j, guards))
              && (f == Err(GuardDisambiguationFailed) <==> forall id :: 25 <= id <= 27 ==> !GuardsMet(id, guards))
              && (f.Err? ==> f == Err(AmbiguousTransition) || f == Err(GuardDisambiguationFailed))
  {
    hide Row, RequiredGuards, Candidate, Candidates, Matches, Increasing, GuardsMet;
    var candidates := Candidates(1, state, ReconciliationResolved);
    var matches := Matches(candidates, guards);
    CandidateMembers(1, state, ReconciliationResolved);
    CandidatesIncrease(1, state, ReconciliationResolved);
    MatchMembers(candidates, guards);
    MatchesIncrease(candidates, guards);
    forall id ensures id in candidates <==> state == ReconciliationRequired && 25 <= id <= 27 {
      ReconciliationCandidates(id, state);
    }
    if state == ReconciliationRequired {
      PickedByCount(candidates, matches);
    } else {
      NoMembers(candidates);
      NoMembers(matches);
    }
  }

  /** A reconciliation's outcome is accepted exactly when it is current, the run
    * awaits it and exactly one outcome is proved, which is then where it leads; two
    * proofs are ambiguous and none decides nothing. */
  lemma ReconciliationDecidedByLaw(run: PaperQualificationRun, event: QualificationEvent, ctx: TransitionContext)
    requires FirstUse(event, ctx) && event.eventType == ReconciliationResolved
    ensures var t := Transition(run, event, ctx);
            if run.revision != ctx.expectedRevision then t == Err(StaleRevision)
            else if IsTerminal(run.state) then t == Err(TerminalState)
            else if run.state != ReconciliationRequired then t == Err(InvalidTransition)
            else
              && (t.Ok? ==> Proves(ctx.guards, t.value.nextState) && AcceptedByLaw(run, event, ctx, t.value)
                            && forall to :: Proves(ctx.guards, to) ==> to == t.value.nextState)
              && (t == Err(AmbiguousTransition) <==>
                    exists p, q :: p != q && Proves(ctx.guards, p) && Proves(ctx.guards, q))
              && (t == Err(GuardDisambiguationFailed) <==> forall to :: !Proves(ctx.guards, to))
              && (t.Err? ==> t == Err(AmbiguousTransition) || t == Err(GuardDisambiguationFailed))
  {
    hide Row, RequiredGuards, Candidate, Decide, AcceptedByLaw, FindTransition, DestinationState, Proves, GuardsMet;
    ReconciliationFound(run.state, ctx.guards);
    ProvenRows(ctx.guards);
    var f := FindTransition(run.state, ReconciliationResolved, ctx.guards);
    if f.Ok? && f.value.Some? {
      var id := f.value.value;
      MetIsNothingMissing(id, ctx.guards);
      ReconciliationRows(id);
      HasDestination(id, run, event, ctx);
      RowDecides(id, run, event, ctx);
      ReconciliationDestination(id, run, ctx);
      DecidesDestination(id, run, event, ctx, DestinationState(id, run, ctx).value);
    }
  }

  lemma MetIsNothingMissing(id: nat, guards: set<Guard>)
    requires GuardsMet(id, guards)
    ensures IsRow(id) && RequiredGuards(id) - guards == {}
  {
    hide RequiredGuards;
    SubsetIsNothingMissing(RequiredGuards(id), guards);
  }

  function OutcomeRow(to: QualificationState): nat {
    if to == Cancelled then 26 else if to == Rejected then 27 else 25
  }

  /** The rows whose guards are met are those of the proved outcomes. */
  lemma ProvenRows(guards: set<Guard>)
    ensures forall to :: Proves(guards, to) ==> 25 <= OutcomeRow(to) <= 27 && GuardsMet(OutcomeRow(to), guards)
    ensures GuardsMet(25, guards) <==> Proves(guards, Acknowledged)
    ensures GuardsMet(26, guards) <==> Proves(guards, Cancelled)
    ensures GuardsMet(27, guards) <==> Proves(guards, Rejected)
    ensures forall to :: Proves(guards, to) ==> to == Acknowledged || to == Cancelled || to == Rejected
  {
    hide Row;
  }

  lemma ReconciliationDestination(id: nat, run: PaperQualificationRun, ctx: TransitionContext)
    requires 25 <= id <= 27
    ensures DestinationState(id, run, ctx)
            == Some(if id == 25 then Acknowledged else if id == 26 then Cancelled else Rejected)
  {
    hide Row, RequiredGuards;
    ReconciliationRows(id);
  }

  /** What picking yields from three candidates, by how many of them match. */
  lemma PickedByCount(candidates: seq<nat>, matches: seq<nat>)
    requires Increasing(matches) && forall id :: id in candidates <==> 25 <= id <= 27
    requires forall id :: id in matches ==> id in candidates
    ensures |matches| == 1 ==> Pick(candidates, matches) == Ok(Some(matches[0]))
    ensures |matches| > 1 ==> Pick(candidates, matches) == Err(AmbiguousTransition)
    ensures matches == [] ==> Pick(candidates, matches) == Err(GuardDisambiguationFailed)
    ensures |matches| > 1 <==> exists i, j :: i != j && i in matches && j in matches
    ensures |matches| == 0 <==> forall id :: id !in matches
  {
    assert 25 in candidates && 26 in candidates;
    var i :| 0 <= i < |candidates| && candidates[i] == 25;
    var j :| 0 <= j < |candidates| && candidates[j] == 26;
    if |matches| > 0 {
      IsMember(matches, 0);
    }
    if |matches| > 1 {
      IsMember(matches, 1);
      assert matches[0] != matches[1];
    }
  }
}
