/** What a call of the qualification service answers and leaves behind, told by the
  * store and the command alone (volcanoes/application/qualification/service.py:254-362):
  * which run it works on, every refusal and its reason, and for an acceptable command
  * what each failing port leaves.
  */
module ServiceLaw {
  import opened Wrappers
  import opened QualificationContracts
  import opened StateMachine
  import opened RunChain
  import opened QualificationService
  import opened EventLaw

  /** No stored run, and the command does not start one. */
  predicate Unknown(s: Store, c: Command) { c.runId !in s.runs && c.eventType != StartQualification }

  /** A start from revision 0 of a run already stored and not started. */
  predicate AlreadyThere(s: Store, c: Command) {
    && c.runId in s.runs && s.runs[c.runId].state == NotStarted
    && c.eventType == StartQualification && c.expectedRevision == 0
  }

  /** The run the command is decided against. */
  function Subject(s: Store, c: Command): PaperQualificationRun {
    if c.runId in s.runs then s.runs[c.runId]
    else PaperQualificationRun(c.runId, c.scenarioId, c.correlationId, NotStarted, Pending, 0)
  }

  /** A command that finds no run to work on, or one it may not start again, changes
    * nothing, whatever the other ports would do. */
  lemma WithoutRun(s: Store, c: Command, f: Faults)
    ensures f.get == NoFault && Unknown(s, c) ==> Execute(s, c, f) == (s, Raised(RunNotFound))
    ensures f.get == NoFault && AlreadyThere(s, c) ==> Execute(s, c, f) == (s, Raised(RunAlreadyExists))
    ensures f.get != NoFault ==> Execute(s, c, f) == (s, Raised(RepositoryGetFailed))
    ensures Execute(s, c, f).1 == Raised(RunNotFound) ==> f.get == NoFault && Unknown(s, c)
    ensures Execute(s, c, f).1 == Raised(RunAlreadyExists) ==> f.get == NoFault && AlreadyThere(s, c)
    ensures Execute(s, c, f).1 == Raised(RepositoryGetFailed) ==> f.get != NoFault
  {
    hide Transition;
  }

  lemma SubjectIsLoaded(s: Store, c: Command)
    requires !Unknown(s, c) && !AlreadyThere(s, c)
    ensures LoadOrCreate(s.runs, c) == Ok(Subject(s, c))
  {
  }

  /** A key already recorded for the run: the same content is replayed at the run's
    * present state with no effect, other content is a conflict; nothing is stored. */
  ghost predicate AnsweredFromRecord(s: Store, c: Command, outcome: Outcome)
    requires (c.runId, c.key) in s.records
  {
    var record, run := s.records[(c.runId, c.key)], Subject(s, c);
    if record.fingerprint == Fingerprint(c.eventType, c.environment, c.actor, c.payload, c.objectReference) then
      && outcome.CommandReplayed? && outcome.decision.replayed && outcome.decision.effects == []
      && outcome.decision.previousState == outcome.decision.nextState == run.state
      && outcome.decision.previousRevision == outcome.decision.nextRevision == run.revision
      && outcome.decision.transitionId == record.decision.transitionId
      && outcome.decision.result == record.decision.result
    else outcome == CommandRejected(IdempotencyConflict)
  }

  /** Why a first-use command is refused, in the order the reasons are looked at;
    * None when it is accepted. */
  ghost predicate RefusedByLaw(run: PaperQualificationRun, c: Command, reason: Option<TransitionError>) {
    if run.revision != c.expectedRevision then reason == Some(StaleRevision)
    else if IsTerminal(run.state) then reason == Some(TerminalState)
    else if !Legal(c.eventType, run.state) then reason == Some(InvalidTransition)
    else if c.eventType == ReconciliationResolved then
      && (reason == Some(AmbiguousTransition) <==>
            exists p, q :: p != q && Proves(c.guards, p) && Proves(c.guards, q))
      && (reason == Some(GuardDisambiguationFailed) <==> forall to :: !Proves(c.guards, to))
      && (reason.Some? ==> reason.value == AmbiguousTransition || reason.value == GuardDisambiguationFailed)
    else
      reason == if Demanded(c.eventType, run.state) <= c.guards then None
                else Some(GuardMissing(Demanded(c.eventType, run.state) - c.guards))
  }

  lemma FirstUseByLaw(run: PaperQualificationRun, c: Command, prior: Option<PriorCommandRecord>)
    requires prior.None? || prior.value.key != c.key
    ensures var t := Transition(run, c.ToEvent(), c.ToContext(prior));
            && RefusedByLaw(run, c, if t.Err? then Some(t.error) else None)
            && (t.Ok? ==> AcceptedByLaw(run, c.ToEvent(), c.ToContext(prior), t.value)
                          && (c.eventType == ReconciliationResolved ==> Proves(c.guards, t.value.nextState)))
  {
    hide Transition, AcceptedByLaw, Demanded, Proves, Legal;
    if c.eventType == ReconciliationResolved {
      ReconciliationDecidedByLaw(run, c.ToEvent(), c.ToContext(prior));
      OnlyFromReconciliation(run.state);
    } else {
      CommandDecidedByLaw(run, c.ToEvent(), c.ToContext(prior));
    }
  }

  lemma OnlyFromReconciliation(state: QualificationState)
    ensures Legal(ReconciliationResolved, state) <==> state == ReconciliationRequired
  {
  }

  /** What an accepted command stores: the next version of its run, its evidence and
    * its command record, and nothing else. */
  ghost predicate StoredByLaw(s: Store, c: Command, s': Store, outcome: Outcome) {
    && outcome.CommandAccepted?
    && var run, d := Subject(s, c), outcome.decision;
    && AcceptedByLaw(run, c.ToEvent(), c.ToContext(s.Prior(c)), d)
    && (c.eventType == ReconciliationResolved ==> Proves(c.guards, d.nextState))
    && outcome.run == run.(state := d.nextState, result := d.result, revision := run.revision + 1)
    && s'.runs == s.runs[c.runId := outcome.run]
    && s'.intents == s.intents + d.evidence
    && s'.records
       == s.records[(c.runId, c.key) :=
                      PriorCommandRecord(c.key, Fingerprint(c.eventType, c.environment, c.actor, c.payload,
                                                            c.objectReference), d)]
  }

  /** One call on failure-free ports, every outcome and everything it stores. */
  ghost predicate CallByLaw(s: Store, c: Command) {
    var (s', outcome) := Execute(s, c, NO_FAULTS);
    if Unknown(s, c) then outcome == Raised(RunNotFound) && s' == s
    else if AlreadyThere(s, c) then outcome == Raised(RunAlreadyExists) && s' == s
    else if (c.runId, c.key) in s.records then AnsweredFromRecord(s, c, outcome) && s' == s
    else
      exists reason ::
        && RefusedByLaw(Subject(s, c), c, reason)
        && if reason.Some? then outcome == CommandRejected(reason.value) && s' == s
           else StoredByLaw(s, c, s', outcome)
  }

  lemma CallObeys(s: Store, c: Command)
    requires WellKeyed(s)
    ensures CallByLaw(s, c)
  {
    hide Execute, Transition, StoredByLaw, RefusedByLaw, AnsweredFromRecord;
    WithoutRun(s, c, NO_FAULTS);
    if !Unknown(s, c) && !AlreadyThere(s, c) {
      if (c.runId, c.key) in s.records {
        RecordAnswers(s, c);
      } else {
        FirstUseCall(s, c);
      }
    }
  }

  lemma RecordAnswers(s: Store, c: Command)
    requires WellKeyed(s) && !Unknown(s, c) && !AlreadyThere(s, c) && (c.runId, c.key) in s.records
    ensures var (s', outcome) := Execute(s, c, NO_FAULTS); AnsweredFromRecord(s, c, outcome) && s' == s
  {
    hide Transition;
    SubjectIsLoaded(s, c);
    ReplayIsInert(Subject(s, c), c.ToEvent(), c.ToContext(s.Prior(c)));
  }

  lemma FirstUseCall(s: Store, c: Command)
    requires WellKeyed(s) && !Unknown(s, c) && !AlreadyThere(s, c) && (c.runId, c.key) !in s.records
    ensures var (s', outcome) := Execute(s, c, NO_FAULTS);
            exists reason ::
              && RefusedByLaw(Subject(s, c), c, reason)
              && if reason.Some? then outcome == CommandRejected(reason.value) && s' == s
                 else StoredByLaw(s, c, s', outcome)
  {
    hide Transition, RefusedByLaw, LoadOrCreate, AcceptedByLaw, Commit;
    SubjectIsLoaded(s, c);
    var run := Subject(s, c);
    FirstUseByLaw(run, c, None);
    var t := Transition(run, c.ToEvent(), c.ToContext(None));
    if t.Ok? {
      assert RefusedByLaw(run, c, None);
      AcceptedIsStored(s, c, t.value);
    } else {
      assert RefusedByLaw(run, c, Some(t.error));
    }
  }

  lemma AcceptedIsStored(s: Store, c: Command, d: TransitionDecision)
    requires WellKeyed(s) && !Unknown(s, c) && !AlreadyThere(s, c) && (c.runId, c.key) !in s.records
    requires AcceptedByLaw(Subject(s, c), c.ToEvent(), c.ToContext(None), d)
    requires c.eventType == ReconciliationResolved ==> Proves(c.guards, d.nextState)
    requires Transition(Subject(s, c), c.ToEvent(), c.ToContext(None)) == Ok(d)
    ensures var (s', outcome) := Execute(s, c, NO_FAULTS); StoredByLaw(s, c, s', outcome)
  {
    hide Transition, LeadsTo, ResultOf, EffectOf, RetryOf, LoadOrCreate, Commit;
    SubjectIsLoaded(s, c);
    DecisionFacts(Subject(s, c), c, None);
    CommitStores(s, c, d);
  }

  lemma CommitStores(s: Store, c: Command, d: TransitionDecision)
    requires WellKeyed(s)
    requires d.previousRevision == Subject(s, c).revision && d.nextRevision == Subject(s, c).revision + 1
    ensures var (s', outcome) := Commit(s, c, Subject(s, c), d, NO_FAULTS);
            && outcome == CommandAccepted(d, ApplyTransition(Subject(s, c), d))
            && s'.runs == s.runs[c.runId := ApplyTransition(Subject(s, c), d)]
            && s'.intents == s.intents + d.evidence
            && s'.records == s.records[(c.runId, c.key) := RecordOf(c, d)]
  {
  }

  /** What is left of a command that would have been accepted when a port fails: the
    * first failing port decides the error, and everything written before it stays. */
  ghost predicate LeftByFault(s: Store, c: Command, f: Faults) {
    var (stored, accepted) := Execute(s, c, NO_FAULTS);
    var (s', outcome) := Execute(s, c, f);
    var evidence := s.(intents := stored.intents);
    var version := stored.(records := s.records);
    if f.get != NoFault then outcome == Raised(RepositoryGetFailed) && s' == s
    else if f.prior != NoFault then outcome == Raised(IdempotencyReadFailed) && s' == s
    else if f.evidence != NoFault then
      outcome == Raised(EvidenceRecordingFailed) && s' == if f.evidence == FailBefore then s else evidence
    else if f.save != NoFault then
      && outcome == Raised(if f.save == ReportConflict then SaveConflict else RunSaveFailed)
      && s' == if f.save == FailAfter then version else evidence
    else if f.record != NoFault then
      outcome == Raised(IdempotencyWriteFailed) && s' == if f.record == FailBefore then version else stored
    else (s', outcome) == (stored, accepted)
  }

  lemma FaultsByLaw(s: Store, c: Command, f: Faults)
    requires WellKeyed(s)
    ensures if Execute(s, c, NO_FAULTS).1.CommandAccepted? then LeftByFault(s, c, f)
            else if f.get != NoFault then Execute(s, c, f) == (s, Raised(RepositoryGetFailed))
            else if Unknown(s, c) || AlreadyThere(s, c) || f.prior == NoFault then
              Execute(s, c, f) == Execute(s, c, NO_FAULTS) && Execute(s, c, f).0 == s
            else Execute(s, c, f) == (s, Raised(IdempotencyReadFailed))
  {
    hide Transition, ApplyTransition, Commit, LeftByFault, CanSave;
    var loaded := LoadOrCreate(s.runs, c);
    if loaded.Ok? {
      var decided := Transition(loaded.value, c.ToEvent(), c.ToContext(s.Prior(c)));
      if decided.Ok? && !decided.value.replayed {
        DecisionFacts(loaded.value, c, s.Prior(c));
        CommitSaves(s, c, loaded.value, decided.value);
        CommitAccepts(s, c, loaded.value, decided.value);
        FaultLeaves(s, c, loaded.value, decided.value, f);
      }
    }
  }

  lemma CommitAccepts(s: Store, c: Command, run: PaperQualificationRun, d: TransitionDecision)
    requires CanSave(s.runs, ApplyTransition(run, d), d.previousRevision)
    ensures Commit(s, c, run, d, NO_FAULTS).1.CommandAccepted?
  {
  }

  lemma FaultLeaves(s: Store, c: Command, run: PaperQualificationRun, d: TransitionDecision, f: Faults)
    requires LoadOrCreate(s.runs, c) == Ok(run) && !d.replayed
    requires Transition(run, c.ToEvent(), c.ToContext(s.Prior(c))) == Ok(d)
    requires CanSave(s.runs, ApplyTransition(run, d), d.previousRevision)
    ensures LeftByFault(s, c, f)
  {
    hide Transition, ApplyTransition, LoadOrCreate, CanSave;
  }
}
