/** What every saved history of one qualification run satisfies.
  * A history is the list of accepted, saved transitions of a run; that every
  * history the service writes is a valid one is proved in `Interleaving`.
  */
module RunChain {
  import opened Wrappers
  import opened QualificationContracts
  import opened StateMachine

  datatype SavedStep = SavedStep(
    caller: nat,
    command: Command,
    prior: Option<PriorCommandRecord>,
    before: PaperQualificationRun,
    decision: TransitionDecision,
    after: PaperQualificationRun)

  /** The run a START_QUALIFICATION command creates in memory. */
  function FreshRun(c: Command): PaperQualificationRun {
    PaperQualificationRun(c.runId, c.scenarioId, c.correlationId, NotStarted, Pending, 0)
  }

  ghost predicate ValidStep(s: SavedStep) {
    && s.before.runId == s.command.runId
    && Transition(s.before, s.command.ToEvent(), s.command.ToContext(s.prior)) == Ok(s.decision)
    && !s.decision.replayed
    && s.after == ApplyTransition(s.before, s.decision)
  }

  ghost predicate ValidChain(h: seq<SavedStep>) {
    && (forall i :: 0 <= i < |h| ==> ValidStep(h[i]))
    && (|h| > 0 ==> h[0].before == FreshRun(h[0].command))
    && (forall i :: 0 < i < |h| ==> h[i].before == h[i - 1].after)
  }

  /** A restart that moves the run to another state than the saved one. */
  predicate Jump(s: SavedStep) {
    && s.command.eventType == ProcessRestarted
    && s.command.recoveredState.Some?
    && s.command.recoveredState.value != s.before.state
  }

  predicate Faithful(h: seq<SavedStep>) {
    forall i :: 0 <= i < |h| ==> !Jump(h[i])
  }

  // ---- One step -----------------------------------------------------------

  /** The step is the work of registry row `s.decision.transitionId`. */
  ghost predicate FollowsRow(s: SavedStep) {
    var id := s.decision.transitionId;
    && Candidate(id, s.before.state, s.command.eventType)
    && RequiredGuards(id) <= s.command.guards
    && !IsTerminal(s.before.state)
    && s.decision.effects == Effects(id)
    && Some(s.after.state) == DestinationState(id, s.before, s.command.ToContext(s.prior))
    && s.after.result == StepResult(id, s.before)
    && s.command.expectedRevision == s.before.revision
    && s.after.revision == s.before.revision + 1
    && s.after.runId == s.before.runId
    && |s.decision.evidence| == 1
    && s.decision.evidence[0].runId == s.before.runId
    && s.decision.evidence[0].nextRevision == s.after.revision
  }

  lemma StepRow(s: SavedStep)
    requires ValidStep(s)
    ensures FollowsRow(s)
  {
    hide Row, RequiredGuards, SourceMatches, Effects, Decide, FindTransition;
    AcceptedExactlyWhen(s.before, s.command.ToEvent(), s.command.ToContext(s.prior), s.decision.transitionId);
  }

  predicate Sends(s: SavedStep) { SendBrokerRequest in s.decision.effects }

  /** What one saved step does; the lemmas below need no other fact about the
    * registry. */
  ghost predicate StepGraph(s: SavedStep) {
    var event := s.command.eventType;
    var from, to := s.before.state, s.after.state;
    if event == ProcessRestarted then
      !Sends(s) && s.after.result == s.before.result && (!Jump(s) ==> to == from)
    else
      && (if event == PrechecksFailed then Rank(to) == Rank(from) + 1 == 13 else Rank(to) < Rank(from))
      && Consistent(to, s.after.result)
      && (to == Approved <==> event == OperatorApproved)
      && (to == SubmissionPending <==> event == SubmissionStarted)
      && (Sends(s) <==> event == BrokerRequestSent)
      && (event == SubmissionStarted ==> from == Approved)
      && (event == BrokerRequestSent ==> from == SubmissionPending && to == Submitted)
      && (from == Unresolved ==> to == ReconciliationRequired || to == Aborted)
      && (from == ReconciliationRequired && event != ReconciliationResolved ==> to == Disqualified || to == Aborted)
  }

  lemma StepFacts(s: SavedStep)
    requires FollowsRow(s)
    ensures StepGraph(s)
  {
    hide Row, RequiredGuards;
    var id := s.decision.transitionId;
    assert RowSound(id, Row(id));
  }

  lemma ChainStep(h: seq<SavedStep>, i: nat)
    requires ValidChain(h) && i < |h|
    ensures FollowsRow(h[i]) && StepGraph(h[i])
  {
    hide ValidStep, FollowsRow, StepGraph;
    assert ValidStep(h[i]);
    StepRow(h[i]);
    StepFacts(h[i]);
  }

  lemma ChainPrefix(h: seq<SavedStep>, n: nat)
    requires ValidChain(h) && n <= |h|
    ensures ValidChain(h[..n])
    ensures Faithful(h) ==> Faithful(h[..n])
  {
    hide ValidStep;
  }

  // ---- Whole runs ----------------------------------------------------------

  /** Position is revision: entry i was computed from version i, demanded version
    * i and made version i+1, so no revision is written twice or skipped. */
  lemma {:induction false} ChainRevisions(h: seq<SavedStep>, i: nat)
    requires ValidChain(h) && i < |h|
    ensures h[i].before.revision == i && h[i].after.revision == i + 1
    ensures h[i].command.expectedRevision == i
    ensures h[i].command.runId == h[0].command.runId == h[i].after.runId
  {
    hide ValidStep, StepGraph;
    ChainStep(h, i);
    assert h[i].before.runId == h[i].command.runId by { StepRunId(h[i]); }
    if i > 0 {
      ChainRevisions(h, i - 1);
    }
  }

  lemma StepRunId(s: SavedStep)
    requires ValidStep(s)
    ensures s.before.runId == s.command.runId
  {
  }

  function SendCount(h: seq<SavedStep>): nat {
    if h == [] then 0 else SendCount(h[..|h| - 1]) + if Sends(h[|h| - 1]) then 1 else 0
  }

  /** The states a run can be in while the broker request is still ahead. */
  predicate BeforeSend(state: QualificationState) { Rank(state) >= 8 }

  /** A restart that moves a run from behind the broker request to before it. */
  predicate Rewind(s: SavedStep) {
    Jump(s) && !BeforeSend(s.before.state) && BeforeSend(s.after.state)
  }

  /** A request was sent, and no restart has taken the run back to before it since. */
  predicate SentSince(h: seq<SavedStep>) {
    h != []
    && (Sends(h[|h| - 1]) || (!Rewind(h[|h| - 1]) && SentSince(h[..|h| - 1])))
  }

  /** The restarts that took the run back behind a request sent since the last one. */
  function Reopenings(h: seq<SavedStep>): nat {
    if h == [] then 0
    else Reopenings(h[..|h| - 1]) + if Rewind(h[|h| - 1]) && SentSince(h[..|h| - 1]) then 1 else 0
  }

  /** The requests of a history, exactly: one for each reopening, and one more if
    * the last request has not been reopened. */
  lemma {:induction false} SendsCounted(h: seq<SavedStep>)
    requires ValidChain(h)
    ensures SendCount(h) == Reopenings(h) + if SentSince(h) then 1 else 0
    ensures SentSince(h) ==> !BeforeSend(h[|h| - 1].after.state)
  {
    hide ValidStep, ValidChain, FollowsRow, Jump, StepGraph, BeforeSend;
    if h != [] {
      var n := |h| - 1;
      ChainPrefix(h, n);
      SendsCounted(h[..n]);
      ChainStep(h, n);
      StepAroundSend(h[n]);
      if n > 0 {
        LinkAt(h, n);
        assert h[..n][n - 1] == h[n - 1];
      }
    }
  }

  /** Where a step leaves the run, seen from the broker request. */
  lemma StepAroundSend(s: SavedStep)
    requires StepGraph(s)
    ensures Sends(s) ==> BeforeSend(s.before.state) && !BeforeSend(s.after.state) && !Rewind(s)
    ensures !BeforeSend(s.before.state) && !Rewind(s) ==> !BeforeSend(s.after.state)
    ensures Rewind(s) ==> !BeforeSend(s.before.state) && BeforeSend(s.after.state) && Jump(s)
  {
    hide Sends, Consistent;
  }

  /** A history in which no restart reopens a request asks the broker at most once;
    * a second request needs a reopening. */
  lemma AtMostOneSend(h: seq<SavedStep>)
    requires ValidChain(h)
    ensures Reopenings(h) == 0 ==> SendCount(h) <= 1
    ensures SendCount(h) >= 2 ==> Reopenings(h) >= 1
  {
    SendsCounted(h);
  }

  /** With faithful restarts nothing is reopened. */
  lemma {:induction false} FaithfulNeverReopens(h: seq<SavedStep>)
    requires Faithful(h)
    ensures Reopenings(h) == 0
  {
    hide BeforeSend;
    if h != [] {
      FaithfulNeverReopens(h[..|h| - 1]);
    }
  }

  /** A faithful run that stands approved, or about to submit, has saved an
    * operator approval, and a submission start after it. */
  lemma {:induction false} ApprovalOnRecord(h: seq<SavedStep>) returns (i: nat, j: nat)
    requires ValidChain(h) && Faithful(h) && h != []
    requires h[|h| - 1].after.state == Approved || h[|h| - 1].after.state == SubmissionPending
    ensures i < |h| && h[i].command.eventType == OperatorApproved
    ensures h[|h| - 1].after.state == SubmissionPending ==>
              i < j < |h| && h[j].command.eventType == SubmissionStarted
    decreases |h|
  {
    hide ValidStep, FollowsRow;
    var n := |h| - 1;
    ChainStep(h, n);
    if h[n].command.eventType == OperatorApproved {
      i, j := n, n;
    } else {
      assert n > 0;
      ChainPrefix(h, n);
      assert h[..n][n - 1] == h[n - 1];
      i, j := ApprovalOnRecord(h[..n]);
      if h[n].command.eventType == SubmissionStarted {
        j := n;
      }
    }
  }

  /** No broker request without an earlier approval and submission start. */
  lemma ApprovalPrecedesSend(h: seq<SavedStep>, k: nat) returns (i: nat, j: nat)
    requires ValidChain(h) && Faithful(h) && k < |h| && Sends(h[k])
    ensures i < j < k
    ensures h[i].command.eventType == OperatorApproved && h[j].command.eventType == SubmissionStarted
    ensures {OperatorApprovalValid, PlanCurrent, EvidenceAvailable} <= h[i].command.guards
    ensures {ApprovalNotExpired, NoDuplicateKey, EmergencyStopInactive} <= h[j].command.guards
    ensures {BrokerCapabilityAvailable, NoDuplicateKey, PaperEnvironment} <= h[k].command.guards
  {
    hide ValidStep;
    ChainStep(h, k);
    assert k > 0;
    ChainPrefix(h, k);
    assert h[..k][k - 1] == h[k - 1];
    i, j := ApprovalOnRecord(h[..k]);
    ChainStep(h, i);
    ChainStep(h, j);
    ApprovalGuards(h[i].decision.transitionId);
    ApprovalGuards(h[j].decision.transitionId);
    ApprovalGuards(h[k].decision.transitionId);
  }

  lemma ApprovalGuards(id: nat)
    requires IsRow(id)
    ensures Row(id).eventType == OperatorApproved ==>
              RequiredGuards(id) == {OperatorApprovalValid, PlanCurrent, EvidenceAvailable}
    ensures Row(id).eventType == SubmissionStarted ==>
              RequiredGuards(id) == {ApprovalNotExpired, NoDuplicateKey, EmergencyStopInactive}
    ensures Row(id).eventType == BrokerRequestSent ==>
              RequiredGuards(id) == {BrokerCapabilityAvailable, NoDuplicateKey, PaperEnvironment}
  {
    hide Row;
  }

  /** State and result agree at every version of a faithful run. */
  lemma {:induction false} ResultsConsistent(h: seq<SavedStep>, k: nat)
    requires ValidChain(h) && Faithful(h) && k < |h|
    ensures Consistent(h[k].after.state, h[k].after.result)
  {
    hide ValidStep, FollowsRow;
    ChainStep(h, k);
    if k > 0 {
      ResultsConsistent(h, k - 1);
    }
  }

  /** Steps that are not restarts, and among them the failed prechecks. */
  function Progress(h: seq<SavedStep>): nat {
    if h == [] then 0
    else Progress(h[..|h| - 1]) + if h[|h| - 1].command.eventType == ProcessRestarted then 0 else 1
  }

  function FailedPrechecks(h: seq<SavedStep>): nat {
    if h == [] then 0
    else FailedPrechecks(h[..|h| - 1]) + if h[|h| - 1].command.eventType == PrechecksFailed then 1 else 0
  }

  lemma CountsExtend(h: seq<SavedStep>, a: nat, b: nat)
    requires a < b <= |h|
    ensures var event := h[b - 1].command.eventType;
            && Progress(h[a..b]) == Progress(h[a..b - 1]) + (if event == ProcessRestarted then 0 else 1)
            && FailedPrechecks(h[a..b]) == FailedPrechecks(h[a..b - 1]) + (if event == PrechecksFailed then 1 else 0)
            && (a == b - 1 ==> Progress(h[a..b - 1]) == FailedPrechecks(h[a..b - 1]) == 0)
  {
    assert h[a..b][..b - 1 - a] == h[a..b - 1];
    assert h[a..b][b - 1 - a] == h[b - 1];
  }

  lemma StepRank(s: SavedStep)
    requires StepGraph(s) && !Jump(s)
    ensures var event := s.command.eventType;
            var from, to := Rank(s.before.state), Rank(s.after.state);
            if event == ProcessRestarted then to == from
            else if event == PrechecksFailed then from == 12 && to == 13
            else to < from
  {
    hide Rank, Sends, Consistent;
  }

  lemma LinkAt(h: seq<SavedStep>, i: nat)
    requires ValidChain(h) && 0 < i < |h|
    ensures h[i].before == h[i - 1].after
  {
    hide ValidStep;
  }

  /** The ranking measure: a faithful run takes at most 13 steps besides restarts
    * and precheck retries, and from version `a` at most as many as the rank it
    * has there, plus two for each failed precheck. */
  lemma {:induction false} RankBound(h: seq<SavedStep>, a: nat, b: nat)
    requires ValidChain(h) && Faithful(h) && a < b <= |h|
    ensures Progress(h[a..b]) + Rank(h[b - 1].after.state)
            <= Rank(h[a].before.state) + 2 * FailedPrechecks(h[a..b])
    ensures Rank(h[a].before.state) <= 11 ==>
              FailedPrechecks(h[a..b]) == 0 && Rank(h[b - 1].after.state) <= Rank(h[a].before.state)
    decreases b
  {
    hide ValidChain, FollowsRow, StepGraph, Rank, Progress, FailedPrechecks, Jump;
    ChainStep(h, b - 1);
    StepRank(h[b - 1]);
    CountsExtend(h, a, b);
    if a < b - 1 {
      LinkAt(h, b - 1);
      RankBound(h, a, b - 1);
    }
  }

  /** From READY_FOR_APPROVAL at most eleven steps remain. */
  lemma AtMostElevenFromReady(h: seq<SavedStep>, a: nat)
    requires ValidChain(h) && Faithful(h) && a < |h|
    requires h[a].before.state == ReadyForApproval
    ensures Progress(h[a..|h|]) <= 11
  {
    hide ValidChain, Faithful, Progress, FailedPrechecks;
    RankBound(h, a, |h|);
  }

  /** After an unresolved broker outcome only a reconciliation outcome lets the
    * run leave for anything but disqualification or abort. */
  lemma {:induction false} UnresolvedNeedsReconciliation(h: seq<SavedStep>, i: nat, k: nat) returns (j: nat)
    requires ValidChain(h) && Faithful(h) && i < k < |h|
    requires h[i].after.state == Unresolved
    requires var to := h[k].after.state;
             to != Unresolved && to != ReconciliationRequired && to != Disqualified && to != Aborted
    ensures i < j <= k && h[j].command.eventType == ReconciliationResolved
    decreases k
  {
    hide ValidStep, FollowsRow;
    ChainStep(h, k);
    if h[k].command.eventType == ReconciliationResolved {
      j := k;
    } else {
      OpenBefore(h, k);
      j := UnresolvedNeedsReconciliation(h, i, k - 1);
    }
  }

  lemma OpenBefore(h: seq<SavedStep>, k: nat)
    requires ValidChain(h) && k < |h|
    ensures !IsTerminal(h[k].before.state)
  {
    hide ValidStep;
    ChainStep(h, k);
  }

  /** A run is qualified only on complete criteria evidence, and stands cancelled
    * only on the broker's word. */
  lemma EvidenceForOutcome(h: seq<SavedStep>, k: nat)
    requires ValidChain(h) && k < |h| && !Jump(h[k])
    ensures h[k].after.state == Qualified ==> CriteriaEvidenceComplete in h[k].command.guards
    ensures h[k].after.state == Cancelled && h[k].before.state != Cancelled ==>
              CancellationConfirmationMatches in h[k].command.guards || BrokerProvesCancellation in h[k].command.guards
  {
    hide ValidStep, Row;
    ChainStep(h, k);
    var id := h[k].decision.transitionId;
    assert RowSound(id, Row(id));
    OutcomeGuards(id);
  }

  lemma OutcomeGuards(id: nat)
    requires IsRow(id)
    ensures 29 <= id <= 32 ==> CriteriaEvidenceComplete in RequiredGuards(id)
    ensures id == 17 ==> CancellationConfirmationMatches in RequiredGuards(id)
    ensures id == 26 ==> BrokerProvesCancellation in RequiredGuards(id)
  {
    hide Row;
  }

  // ---- The bounds are attained ---------------------------------------------

  /** Row `id` leads from one state to another. */
  predicate Leads(id: nat, from: QualificationState, to: QualificationState) {
    IsRow(id) && Row(id).source == Some(from) && Row(id).destination == Some(to)
  }

  predicate Path(rows: seq<nat>, states: seq<QualificationState>) {
    |states| == |rows| + 1 && forall i :: 0 <= i < |rows| ==> Leads(rows[i], states[i], states[i + 1])
  }

  /** Eleven steps from READY_FOR_APPROVAL can really happen. */
  lemma ElevenIsReached()
    ensures Path([5, 6, 9, 10, 22, 24, 25, 12, 16, 17, 30],
                 [ReadyForApproval, ApprovalPending, Approved, SubmissionPending, Submitted, Unresolved,
                  ReconciliationRequired, Acknowledged, PartiallyFilled, CancellationRequested, Cancelled, Qualified])
  {
    hide RowSound;
    assert Leads(5, ReadyForApproval, ApprovalPending) && Leads(6, ApprovalPending, Approved);
    assert Leads(9, Approved, SubmissionPending) && Leads(10, SubmissionPending, Submitted);
    assert Leads(22, Submitted, Unresolved) && Leads(24, Unresolved, ReconciliationRequired);
    assert Leads(25, ReconciliationRequired, Acknowledged) && Leads(12, Acknowledged, PartiallyFilled);
    assert Leads(16, PartiallyFilled, CancellationRequested) && Leads(17, CancellationRequested, Cancelled);
    assert Leads(30, Cancelled, Qualified);
  }

  /** The saved step a first-use command makes when its row fits the run and is the
    * only one to do so; only reconciliation outcomes can fit several. */
  lemma StepFor(before: PaperQualificationRun, c: Command, id: nat) returns (s: SavedStep)
    requires Candidate(id, before.state, c.eventType) && GuardsMet(id, c.guards) && !IsTerminal(before.state)
    requires c.eventType == ReconciliationResolved ==> forall j :: 25 <= j <= 27 && GuardsMet(j, c.guards) ==> j == id
    requires c.runId == before.runId && c.expectedRevision == before.revision
    ensures ValidStep(s) && s.before == before && s.command == c && s.prior == None && s.decision.transitionId == id
  {
    hide Row, RequiredGuards, SourceMatches, FindTransition, Decide, Candidate;
    MatchesApply(before.state, c.eventType, c.guards);
    forall j | Applies(j, before.state, c.eventType, c.guards) ensures j == id {
      RowIsDetermined(j, before.state, c.eventType);
      RowIsDetermined(id, before.state, c.eventType);
    }
    AcceptedExactlyWhen(before, c.ToEvent(), c.ToContext(None), id);
    var d := Transition(before, c.ToEvent(), c.ToContext(None)).value;
    s := SavedStep(0, c, None, before, d, ApplyTransition(before, d));
  }

  // ---- When another broker request is possible -----------------------------------

  /** A continuation without unfaithful restarts. */
  ghost predicate Continues(h: seq<SavedStep>, more: seq<SavedStep>) {
    ValidChain(h + more) && Faithful(more)
  }

  /** The row and event that lead one step on towards the broker request. */
  function Onward(state: QualificationState): (nat, EventType)
    requires BeforeSend(state)
  {
    match state
    case NotStarted => (1, StartQualification)
    case PrecheckFailed => (4, StartQualification)
    case PrecheckPending => (2, PrechecksPassed)
    case ReadyForApproval => (5, ApprovalRequested)
    case ApprovalPending => (6, OperatorApproved)
    case Approved => (9, SubmissionStarted)
    case _ => (10, BrokerRequestSent)
  }

  lemma OnwardRow(state: QualificationState)
    requires BeforeSend(state)
    ensures var (id, event) := Onward(state);
            && Candidate(id, state, event) && !IsTerminal(state)
            && event != ProcessRestarted && event != ReconciliationResolved && id != RESTART_ROW
            && Row(id).destination.Some?
            && var to := Row(id).destination.value;
               && Rank(to) < Rank(state)
               && (if state == SubmissionPending then event == BrokerRequestSent
                   else event != BrokerRequestSent && BeforeSend(to))
  {
    hide RowSound;
  }

  /** One step on, under exactly the guards its row requires. */
  lemma OnwardStep(run: PaperQualificationRun) returns (s: SavedStep)
    requires BeforeSend(run.state)
    ensures ValidStep(s) && s.before == run && !Jump(s)
    ensures Sends(s) <==> run.state == SubmissionPending
    ensures run.state != SubmissionPending ==> BeforeSend(s.after.state) && Rank(s.after.state) < Rank(run.state)
  {
    hide ValidStep, FollowsRow, BeforeSend, Onward, Candidate, Row, RequiredGuards, Rank;
    OnwardRow(run.state);
    var (id, event) := Onward(run.state);
    CandidateIsRow(run.state, event);
    var c := Command(run.runId, "", "", event, run.revision, "step", "step", Application, RequiredGuards(id), [],
                     None, "PAPER", None);
    s := StepFor(run, c, id);
    StepRow(s);
    StepFacts(s);
    StepDestination(s);
  }

  lemma StepDestination(s: SavedStep)
    requires FollowsRow(s) && s.decision.transitionId != RESTART_ROW
    ensures Some(s.after.state) == Row(s.decision.transitionId).destination
  {
    hide Row, RequiredGuards;
  }

  /** Before the request, a run can always be led on to it. */
  lemma {:induction false} LeadOn(h: seq<SavedStep>) returns (more: seq<SavedStep>)
    requires ValidChain(h) && h != [] && BeforeSend(h[|h| - 1].after.state)
    ensures Continues(h, more) && SendCount(h + more) == SendCount(h) + 1
    decreases Rank(h[|h| - 1].after.state)
  {
    hide ValidStep, ValidChain, SendCount, Sends, Jump, Rank, BeforeSend;
    var s := OnwardStep(h[|h| - 1].after);
    ChainAppend(h, s);
    CountAppend(h, s);
    if Sends(s) {
      more := [s];
    } else {
      var rest := LeadOn(h + [s]);
      more := [s] + rest;
      assert h + more == (h + [s]) + rest;
    }
  }

  /** Behind it, none follows without an unfaithful restart. */
  lemma {:induction false} NoSendBehind(h: seq<SavedStep>, more: seq<SavedStep>)
    requires h != [] && !BeforeSend(h[|h| - 1].after.state) && Continues(h, more)
    ensures SendCount(h + more) == SendCount(h)
    ensures var all := h + more; !BeforeSend(all[|all| - 1].after.state)
    decreases |more|
  {
    hide ValidStep, ValidChain, SendCount, Sends, Jump, Rank, BeforeSend, StepGraph, FollowsRow;
    if more == [] {
      assert h + more == h;
    } else {
      var n := |more| - 1;
      var s, all := more[n], h + more;
      assert all[..|all| - 1] == h + more[..n] && all == (h + more[..n]) + [s] && all[|all| - 1] == s;
      ChainPrefix(all, |all| - 1);
      NoSendBehind(h, more[..n]);
      ChainStep(all, |all| - 1);
      LinkAt(all, |all| - 1);
      StepAroundSend(s);
      CountAppend(h + more[..n], s);
    }
  }

  /** At any moment of any run, a broker request can still follow, without an
    * unfaithful restart, exactly while the run is in a state before it. */
  lemma CanStillSend(h: seq<SavedStep>)
    requires ValidChain(h) && h != []
    ensures BeforeSend(h[|h| - 1].after.state) <==>
              exists more :: Continues(h, more) && SendCount(h + more) == SendCount(h) + 1
    ensures !BeforeSend(h[|h| - 1].after.state) ==>
              forall more :: Continues(h, more) ==> SendCount(h + more) == SendCount(h)
  {
    hide ValidChain, SendCount, BeforeSend, Continues;
    if BeforeSend(h[|h| - 1].after.state) {
      var more := LeadOn(h);
    } else {
      forall more | Continues(h, more) ensures SendCount(h + more) == SendCount(h) {
        NoSendBehind(h, more);
      }
    }
  }

  lemma RestartRow(state: QualificationState)
    requires !IsTerminal(state)
    ensures Candidate(RESTART_ROW, state, ProcessRestarted)
    ensures RequiredGuards(RESTART_ROW) == {DurableStateAndEvidenceVerified}
  {
    hide RowSound;
  }

  /** A restart to any state whatever is accepted in every open run. */
  lemma RestartTo(run: PaperQualificationRun, t: QualificationState) returns (restart: SavedStep)
    requires !IsTerminal(run.state)
    ensures ValidStep(restart) && restart.before == run && restart.after.state == t && !Sends(restart)
    ensures restart.command.eventType == ProcessRestarted && restart.command.recoveredState == Some(t)
  {
    hide ValidStep, FollowsRow;
    var c := Command(run.runId, "", "", ProcessRestarted, run.revision, "restart", "restart", System,
                     {DurableStateAndEvidenceVerified}, [], None, "PAPER", Some(t));
    RestartRow(run.state);
    restart := StepFor(run, c, RESTART_ROW);
    StepRow(restart);
    StepFacts(restart);
    StepRowState(restart);
  }

  /** After a request has been sent in a run still open, a restart to a state lets
    * one more request through if and only if that state lies before the request. */
  lemma RestartLetsSendAgain(h: seq<SavedStep>, t: QualificationState) returns (restart: SavedStep)
    requires ValidChain(h) && SendCount(h) >= 1 && !IsTerminal(h[|h| - 1].after.state)
    ensures ValidChain(h + [restart]) && SendCount(h + [restart]) == SendCount(h)
    ensures restart.command.eventType == ProcessRestarted && restart.command.recoveredState == Some(t)
    ensures BeforeSend(t) <==>
              exists more :: Continues(h + [restart], more)
                          && SendCount(h + [restart] + more) == SendCount(h) + 1
  {
    hide ValidStep, ValidChain, BeforeSend, Continues, Sends;
    restart := RestartTo(h[|h| - 1].after, t);
    ChainAppend(h, restart);
    CountAppend(h, restart);
    CanStillSend(h + [restart]);
  }

  lemma StepRowState(s: SavedStep)
    requires FollowsRow(s) && s.decision.transitionId == RESTART_ROW && s.command.recoveredState.Some?
    ensures s.after.state == s.command.recoveredState.value
  {
    hide Row, RequiredGuards;
  }

  lemma ChainAppend(h: seq<SavedStep>, s: SavedStep)
    requires ValidChain(h) && ValidStep(s)
    requires s.before == if h == [] then FreshRun(s.command) else h[|h| - 1].after
    ensures ValidChain(h + [s])
  {
    hide ValidStep;
  }

  lemma CountAppend(h: seq<SavedStep>, s: SavedStep)
    ensures SendCount(h + [s]) == SendCount(h) + if Sends(s) then 1 else 0
  {
    assert (h + [s])[..|h|] == h;
  }
}
