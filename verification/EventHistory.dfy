/** The event law over saved steps and whole histories: where each saved step came
  * from, what it vouched for, and what must have been saved before it.
  */
module EventHistory {
  import opened Wrappers
  import opened QualificationContracts
  import opened StateMachine
  import opened RunChain
  import opened EventLaw
  import opened Interleaving

  // ---- One saved step ------------------------------------------------------------

  predicate Restarts(s: SavedStep) { s.command.eventType == ProcessRestarted }

  /** A saved step did what its event allows, vouched for everything the event
    * demands, and a reconciliation proved the one outcome it led to. */
  ghost predicate StepByLaw(s: SavedStep) {
    var event, guards := s.command.eventType, s.command.guards;
    && Legal(event, s.before.state)
    && Demanded(event, s.before.state) <= guards
    && (event == ReconciliationResolved ==>
          Proves(guards, s.after.state) && forall to :: Proves(guards, to) ==> to == s.after.state)
    && AcceptedByLaw(s.before, s.command.ToEvent(), s.command.ToContext(s.prior), s.decision)
    && s.after == s.before.(state := s.decision.nextState, result := s.decision.result,
                            revision := s.before.revision + 1)
  }

  lemma StepObeys(s: SavedStep)
    requires ValidStep(s)
    ensures StepByLaw(s)
  {
    hide Transition, Legal, Demanded, Proves;
    var event, ctx := s.command.ToEvent(), s.command.ToContext(s.prior);
    SavedIsFirstUse(s);
    if s.command.eventType == ReconciliationResolved {
      ReconciliationDecidedByLaw(s.before, event, ctx);
      ReconciliationLaw(s.before.state, ctx.guards, s.after.state);
    } else {
      CommandDecidedByLaw(s.before, event, ctx);
    }
  }

  lemma SavedIsFirstUse(s: SavedStep)
    requires ValidStep(s)
    ensures FirstUse(s.command.ToEvent(), s.command.ToContext(s.prior))
    ensures s.after == ApplyTransition(s.before, s.decision)
  {
    hide FindTransition, Decide, DestinationState, RequiredGuards, Row;
  }

  lemma ReconciliationLaw(from: QualificationState, guards: set<Guard>, to: QualificationState)
    requires from == ReconciliationRequired && Proves(guards, to)
    ensures Legal(ReconciliationResolved, from) && Demanded(ReconciliationResolved, from) <= guards
  {
  }

  /** Which saved steps arrive in a state, restarts aside, and on what proof. */
  ghost predicate ArrivesByLaw(s: SavedStep) {
    var event, to, guards := s.command.eventType, s.after.state, s.command.guards;
    && to != NotStarted
    && (to == PrecheckPending <==> event == StartQualification)
    && (to == ReadyForApproval <==> event == PrechecksPassed)
    && (to == PrecheckFailed <==> event == PrechecksFailed)
    && (to == ApprovalPending <==> event == ApprovalRequested)
    && (to == Approved <==> event == OperatorApproved)
    && (to == SubmissionPending <==> event == SubmissionStarted)
    && (to == Submitted <==> event == BrokerRequestSent)
    && (to == Acknowledged <==>
          event == BrokerAcknowledged || (event == ReconciliationResolved && BrokerTruthFound in guards))
    && (to == PartiallyFilled <==> event == BrokerPartialFillReported)
    && (to == Filled <==> event == BrokerFillReported)
    && (to == CancellationRequested <==> event == CancellationRequestedEvent)
    && (to == Cancelled <==>
          || event == BrokerCancellationConfirmed
          || (event == ReconciliationResolved && BrokerProvesCancellation in guards))
    && (to == Rejected <==>
          event == OperatorRejected || event == BrokerRejected
          || (event == ReconciliationResolved && BrokerProvesRejectionOrNoOrder in guards))
    && (to == Expired <==> event == BrokerExpired)
    && (to == Unresolved <==> event == TimeoutDetected)
    && (to == ReconciliationRequired <==> event == ReconciliationStarted)
    && (to == Qualified <==> event == QualificationCriteriaMet)
    && (to == Disqualified <==> event == QualificationCriteriaFailed)
    && (to == Aborted <==> event == AbortRequested)
  }

  /** The whole law of a saved step that is no restart. */
  lemma ArrivalByLaw(s: SavedStep)
    requires ValidStep(s) && !Restarts(s)
    ensures StepByLaw(s) && ArrivesByLaw(s)
  {
    hide ValidStep, Legal, ResultOf, EffectOf, RetryOf, Demanded;
    StepObeys(s);
    if s.command.eventType == ReconciliationResolved {
      ProvedOutcomes(s.command.guards, s.after.state, s.before.state);
    }
  }

  lemma ProvedOutcomes(guards: set<Guard>, to: QualificationState, from: QualificationState)
    requires Demanded(ReconciliationResolved, from) <= guards
    requires Proves(guards, to) && forall other :: Proves(guards, other) ==> other == to
    ensures to == Acknowledged || to == Cancelled || to == Rejected
    ensures to == Acknowledged <==> BrokerTruthFound in guards
    ensures to == Cancelled <==> BrokerProvesCancellation in guards
    ensures to == Rejected <==> BrokerProvesRejectionOrNoOrder in guards
  {
    assert BrokerTruthFound in guards ==> Proves(guards, Acknowledged);
    assert BrokerProvesCancellation in guards ==> Proves(guards, Cancelled);
    assert BrokerProvesRejectionOrNoOrder in guards ==> Proves(guards, Rejected);
  }

  /** In every interleaving every saved step obeys the law. */
  lemma SavedByLaw(actions: seq<Action>, r: RunId, k: nat)
    requires k < |History(Run(INITIAL, actions), r)|
    ensures var s := History(Run(INITIAL, actions), r)[k];
            StepByLaw(s) && (!Restarts(s) ==> ArrivesByLaw(s))
  {
    hide StepByLaw, ArrivesByLaw, Run, History, ValidStep;
    OneChain(actions, r);
    var s := History(Run(INITIAL, actions), r)[k];
    StepObeys(s);
    if !Restarts(s) {
      ArrivalByLaw(s);
    }
  }

  // ---- Whole histories -------------------------------------------------------------

  /** Every version of a run carries the identity its first command gave it. */
  lemma {:induction false} ChainIdentity(h: seq<SavedStep>, k: nat)
    requires ValidChain(h) && k < |h|
    ensures h[k].after.scenarioId == h[0].command.scenarioId
    ensures h[k].after.correlationId == h[0].command.correlationId
    ensures h[k].after.runId == h[0].command.runId
  {
    hide Transition, FollowsRow, StepGraph;
    assert ValidStep(h[k]);
    ChainRevisions(h, k);
    if k > 0 {
      ChainIdentity(h, k - 1);
    }
  }

  /** Where a step of a faithful history came from: an earlier saved step that is no
    * restart led to the state it starts in, and only restarts lie between. */
  lemma {:induction false} CameFrom(h: seq<SavedStep>, k: nat) returns (i: nat)
    requires ValidChain(h) && Faithful(h) && k < |h| && h[k].before.state != NotStarted
    ensures i < k && !Restarts(h[i]) && h[i].after.state == h[k].before.state
    ensures StepByLaw(h[i]) && ArrivesByLaw(h[i])
    ensures forall j :: i < j < k ==> Restarts(h[j])
  {
    hide ValidStep, FollowsRow, StepByLaw, ArrivesByLaw;
    assert k > 0;
    i := k - 1;
    if Restarts(h[i]) {
      ChainStep(h, i);
      i := CameFrom(h, i);
    } else {
      ArrivalByLaw(h[i]);
    }
  }

  /** Which state each step of the way to the broker request starts from. */
  lemma OnTheWay(s: SavedStep)
    requires StepByLaw(s)
    ensures var event, from := s.command.eventType, s.before.state;
            && (event == BrokerRequestSent ==> from == SubmissionPending)
            && (event == SubmissionStarted ==> from == Approved)
            && (event == OperatorApproved ==> from == ApprovalPending)
            && (event == ApprovalRequested ==> from == ReadyForApproval)
            && (event == PrechecksPassed ==> from == PrecheckPending)
    ensures Demanded(s.command.eventType, s.before.state) <= s.command.guards
  {
    hide AcceptedByLaw, Demanded, Proves;
  }

  /** The guards of that way, written out. */
  lemma WayGuards(s: SavedStep)
    requires Demanded(s.command.eventType, s.before.state) <= s.command.guards
    ensures var event, guards := s.command.eventType, s.command.guards;
            && (event == StartQualification ==> {ScenarioAuthorized, PaperEnvironment} <= guards)
            && (event == PrechecksPassed ==>
                  {PaperEnvironment, BrokerSupported, ConfigurationValid, CredentialsAvailable, EvidenceAvailable}
                  <= guards)
            && (event == ApprovalRequested ==> {ApprovalSurfaceAvailable, EmergencyStopInactive} <= guards)
            && (event == OperatorApproved ==> {OperatorApprovalValid, PlanCurrent, EvidenceAvailable} <= guards)
            && (event == SubmissionStarted ==> {ApprovalNotExpired, NoDuplicateKey, EmergencyStopInactive} <= guards)
            && (event == BrokerRequestSent ==> {BrokerCapabilityAvailable, NoDuplicateKey, PaperEnvironment} <= guards)
  {
  }

  /** A saved step of a faithful history was made by this event under its guards. */
  ghost predicate Saved(h: seq<SavedStep>, i: nat, event: EventType, guards: set<Guard>) {
    i < |h| && h[i].command.eventType == event && guards <= h[i].command.guards
  }

  /** The saved step before step k on the way, whatever restarts lie between. */
  lemma StepBefore(h: seq<SavedStep>, k: nat) returns (i: nat)
    requires ValidChain(h) && Faithful(h) && k < |h| && StepByLaw(h[k])
    requires h[k].before.state != NotStarted
    ensures i < k && StepByLaw(h[i]) && ArrivesByLaw(h[i]) && h[i].after.state == h[k].before.state
    ensures Demanded(h[i].command.eventType, h[i].before.state) <= h[i].command.guards
    ensures h[k].before.state == SubmissionPending ==>
              h[i].command.eventType == SubmissionStarted && h[i].before.state == Approved
    ensures h[k].before.state == Approved ==>
              h[i].command.eventType == OperatorApproved && h[i].before.state == ApprovalPending
    ensures h[k].before.state == ApprovalPending ==>
              h[i].command.eventType == ApprovalRequested && h[i].before.state == ReadyForApproval
    ensures h[k].before.state == ReadyForApproval ==>
              h[i].command.eventType == PrechecksPassed && h[i].before.state == PrecheckPending
    ensures h[k].before.state == PrecheckPending ==> h[i].command.eventType == StartQualification
  {
    hide StepByLaw, ValidChain, Demanded;
    i := CameFrom(h, k);
    OnTheWay(h[i]);
  }

  /** A broker request has behind it, in this order, a saved start, passed
    * prechecks, an approval request, an approval and a submission start, each under
    * all its guards. */
  lemma WholePathBeforeSend(h: seq<SavedStep>, k: nat) returns (s: nat, p: nat, r: nat, a: nat, b: nat)
    requires ValidChain(h) && Faithful(h) && k < |h| && h[k].command.eventType == BrokerRequestSent
    ensures s < p < r < a < b < k
    ensures Saved(h, s, StartQualification, {ScenarioAuthorized, PaperEnvironment})
    ensures Saved(h, p, PrechecksPassed,
                  {PaperEnvironment, BrokerSupported, ConfigurationValid, CredentialsAvailable, EvidenceAvailable})
    ensures Saved(h, r, ApprovalRequested, {ApprovalSurfaceAvailable, EmergencyStopInactive})
    ensures Saved(h, a, OperatorApproved, {OperatorApprovalValid, PlanCurrent, EvidenceAvailable})
    ensures Saved(h, b, SubmissionStarted, {ApprovalNotExpired, NoDuplicateKey, EmergencyStopInactive})
    ensures Saved(h, k, BrokerRequestSent, {BrokerCapabilityAvailable, NoDuplicateKey, PaperEnvironment})
  {
    hide StepByLaw, ValidStep, Demanded, ArrivesByLaw, Faithful;
    StepObeys(h[k]);
    OnTheWay(h[k]);
    b := StepBefore(h, k);
    a := StepBefore(h, b);
    r := StepBefore(h, a);
    p := StepBefore(h, r);
    s := StepBefore(h, p);
    WayGuards(h[k]);
    WayGuards(h[b]);
    WayGuards(h[a]);
    WayGuards(h[r]);
    WayGuards(h[p]);
    WayGuards(h[s]);
  }

  /** A run that stands ready for approval has passed all five prechecks. */
  lemma ReadyOnRecord(h: seq<SavedStep>, k: nat) returns (i: nat)
    requires ValidChain(h) && Faithful(h) && k < |h| && h[k].after.state == ReadyForApproval
    ensures i <= k
    ensures Saved(h, i, PrechecksPassed,
                  {PaperEnvironment, BrokerSupported, ConfigurationValid, CredentialsAvailable, EvidenceAvailable})
  {
    hide ValidStep, StepByLaw, Demanded, FollowsRow;
    i := k;
    ChainStep(h, k);
    if Restarts(h[k]) {
      i := CameFrom(h, k);
    } else {
      ArrivalByLaw(h[k]);
    }
    OnTheWay(h[i]);
    WayGuards(h[i]);
  }

  /** What the order outcome a run qualifies from rests on. */
  ghost predicate OutcomeOnRecord(h: seq<SavedStep>, i: nat, outcome: QualificationState) {
    match outcome
    case Filled => Saved(h, i, BrokerFillReported, {FullFillEvidence})
    case Cancelled =>
      || Saved(h, i, BrokerCancellationConfirmed, {CancellationConfirmationMatches})
      || Saved(h, i, ReconciliationResolved, {BrokerProvesCancellation, EvidenceAvailable})
    case Rejected =>
      || Saved(h, i, OperatorRejected, {OperatorRejectionCaptured})
      || Saved(h, i, BrokerRejected, {BrokerRejectionMatches})
      || Saved(h, i, ReconciliationResolved, {BrokerProvesRejectionOrNoOrder, EvidenceAvailable})
    case _ =>
      && outcome == Acknowledged
      && (|| Saved(h, i, BrokerAcknowledged, {BrokerResponseMatches})
          || Saved(h, i, ReconciliationResolved, {BrokerTruthFound, EvidenceAvailable}))
  }

  /** A qualified run met its criteria, on complete evidence and in the scenario that
    * asks for this order outcome, and the outcome itself was saved before, on the
    * broker's, the operator's or a reconciliation's proof. */
  lemma QualifiedOnRecord(h: seq<SavedStep>, k: nat) returns (i: nat)
    requires ValidChain(h) && Faithful(h) && k < |h| && h[k].after.state == Qualified
    ensures i < k
    ensures Saved(h, k, QualificationCriteriaMet, {CriteriaEvidenceComplete, ScenarioRequires(h[k].before.state)})
    ensures h[i].after.state == h[k].before.state && OutcomeOnRecord(h, i, h[k].before.state)
  {
    hide ValidStep, StepByLaw, Demanded, FollowsRow, ScenarioRequires;
    ChainStep(h, k);
    OpenBefore(h, k);
    ArrivalByLaw(h[k]);
    CriteriaLaw(h[k]);
    i := CameFrom(h, k);
    OutcomeGuardsByLaw(h[i]);
  }

  lemma CriteriaLaw(s: SavedStep)
    requires StepByLaw(s) && s.command.eventType == QualificationCriteriaMet
    ensures var from := s.before.state;
            && (from == Acknowledged || from == Cancelled || from == Filled || from == Rejected)
            && {CriteriaEvidenceComplete, ScenarioRequires(from)} <= s.command.guards
  {
    hide AcceptedByLaw, Proves, ScenarioRequires;
  }

  lemma OutcomeGuardsByLaw(s: SavedStep)
    requires StepByLaw(s)
    ensures var event, guards := s.command.eventType, s.command.guards;
            && (event == BrokerFillReported ==> {FullFillEvidence} <= guards)
            && (event == BrokerCancellationConfirmed ==> {CancellationConfirmationMatches} <= guards)
            && (event == OperatorRejected ==> {OperatorRejectionCaptured} <= guards)
            && (event == BrokerRejected ==> {BrokerRejectionMatches} <= guards)
            && (event == BrokerAcknowledged ==> {BrokerResponseMatches} <= guards)
            && (event == ReconciliationResolved ==> {EvidenceAvailable} <= guards)
  {
    hide AcceptedByLaw, Proves, ScenarioRequires;
  }
}
