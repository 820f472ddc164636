/** The immutable records of the Paper qualification protocol
  * (volcanoes/application/qualification/contracts.py).
  * Identifiers are the source's non-blank strings; operator messages are a
  * function of the registry row and are not repeated here.
  */
module QualificationContracts {
  import opened Wrappers

  type RunId = string
  type IdempotencyKey = string

  datatype QualificationState =
    | NotStarted
    | PrecheckPending
    | PrecheckFailed
    | ReadyForApproval
    | ApprovalPending
    | Approved
    | SubmissionPending
    | Submitted
    | Acknowledged
    | PartiallyFilled
    | Filled
    | CancellationRequested
    | Cancelled
    | Rejected
    | Expired
    | Unresolved
    | ReconciliationRequired
    | Qualified
    | Disqualified
    | Aborted

  datatype QualificationResult = Pending | Passed | Failed | ResultAborted | Inconclusive

  datatype EventType =
    | StartQualification
    | PrechecksPassed
    | PrechecksFailed
    | ApprovalRequested
    | OperatorApproved
    | OperatorRejected
    | SubmissionStarted
    | BrokerRequestSent
    | BrokerAcknowledged
    | BrokerPartialFillReported
    | BrokerFillReported
    | CancellationRequestedEvent
    | BrokerCancellationConfirmed
    | BrokerRejected
    | BrokerExpired
    | TimeoutDetected
    | ReconciliationStarted
    | ReconciliationResolved
    | QualificationCriteriaMet
    | QualificationCriteriaFailed
    | AbortRequested
    | ProcessRestarted

  datatype Guard =
    | ScenarioAuthorized
    | PaperEnvironment
    | BrokerSupported
    | ConfigurationValid
    | CredentialsAvailable
    | EvidenceAvailable
    | ApprovalSurfaceAvailable
    | EmergencyStopInactive
    | OperatorApprovalValid
    | PlanCurrent
    | OperatorRejectionCaptured
    | ApprovalNotExpired
    | NoDuplicateKey
    | BrokerCapabilityAvailable
    | BrokerResponseMatches
    | PartialFillValid
    | FullFillEvidence
    | CancellationSupported
    | NoTerminalBrokerState
    | CancellationConfirmationMatches
    | BrokerRejectionMatches
    | BrokerExpirationMatches
    | BrokerOutcomeUnknown
    | BrokerSendUncertain
    | ReadOnlyReconciliationAvailable
    | BrokerTruthFound
    | BrokerProvesCancellation
    | BrokerProvesRejectionOrNoOrder
    | ReconciliationFailedOrEvidenceIncomplete
    | ScenarioRequiresAckOnly
    | ScenarioRequiresCancellationCleanup
    | ScenarioRequiresFill
    | ScenarioRequiresRejection
    | CriteriaEvidenceComplete
    | CriteriaFailed
    | ActorAuthorizedToAbort
    | NoUnsafeBrokerEffectInProgress
    | DurableStateAndEvidenceVerified

  datatype RetryClassification =
    | SafeLocalRetry
    | RetryAfterCorrection
    | NonRetryableSameRun
    | SafeReadRetry
    | SafeEventReplay
    | IdempotentExternalRetryOnly
    | UnsafeExternalRetry
    | ReconcileBeforeRetry
    | SafeRecoveryReadRetry

  datatype SideEffect =
    | RequestOperatorApproval
    | RecordOperatorApproval
    | PrepareBrokerSubmission
    | SendBrokerRequest
    | RecordBrokerReference
    | RecordBrokerLifecycle
    | RequestBrokerCancellation
    | StartReconciliation
    | FinalizeQualification
    | BlockConsequentialAction
    | ResumeOrRequireReconciliation

  datatype ActorType = Operator | Application | BrokerActor | System | Reconciler

  datatype PaperQualificationRun = PaperQualificationRun(
    runId: RunId,
    scenarioId: string,
    correlationId: string,
    state: QualificationState,
    result: QualificationResult,
    revision: nat)

  // The source flattens these five parts into one tuple of strings; the parts
  // can be read back from that tuple, so the record carries the same identity.
  datatype Fingerprint = Fingerprint(
    eventType: EventType,
    environment: string,
    actor: ActorType,
    payload: seq<string>,
    objectReference: Option<string>)

  datatype QualificationEvent = QualificationEvent(
    eventType: EventType,
    commandId: string,
    key: IdempotencyKey,
    actor: ActorType,
    fingerprint: Fingerprint,
    objectReference: Option<string>)

  datatype EvidenceIntent = EvidenceIntent(
    transitionId: nat,
    eventType: EventType,
    source: QualificationState,
    destination: QualificationState,
    runId: RunId,
    scenarioId: string,
    correlationId: string,
    commandId: string,
    key: IdempotencyKey,
    result: QualificationResult,
    actor: ActorType,
    environment: string,
    objectReference: Option<string>,
    previousRevision: nat,
    nextRevision: nat,
    reconciliationRequired: bool)

  datatype TransitionDecision = TransitionDecision(
    transitionId: nat,
    previousState: QualificationState,
    nextState: QualificationState,
    previousRevision: nat,
    nextRevision: nat,
    result: QualificationResult,
    retry: RetryClassification,
    effects: seq<SideEffect>,
    evidence: seq<EvidenceIntent>,
    replayed: bool,
    reconciliationRequired: bool)

  datatype PriorCommandRecord = PriorCommandRecord(
    key: IdempotencyKey,
    fingerprint: Fingerprint,
    decision: TransitionDecision)

  datatype TransitionContext = TransitionContext(
    expectedRevision: nat,
    guards: set<Guard>,
    environment: string,
    prior: Option<PriorCommandRecord>,
    recoveredState: Option<QualificationState>)

  datatype Command = Command(
    runId: RunId,
    scenarioId: string,
    correlationId: string,
    eventType: EventType,
    expectedRevision: nat,
    commandId: string,
    key: IdempotencyKey,
    actor: ActorType,
    guards: set<Guard>,
    payload: seq<string>,
    objectReference: Option<string>,
    environment: string,
    recoveredState: Option<QualificationState>)
  {
    function ToEvent(): QualificationEvent {
      QualificationEvent(eventType, commandId, key, actor,
                         Fingerprint(eventType, environment, actor, payload, objectReference),
                         objectReference)
    }

    function ToContext(prior: Option<PriorCommandRecord>): TransitionContext {
      TransitionContext(expectedRevision, guards, environment, prior, recoveredState)
    }
  }

  predicate IsTerminal(state: QualificationState) {
    (state == Qualified || state == Disqualified || state == Aborted)
  }
}
