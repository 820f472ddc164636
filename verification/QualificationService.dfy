/** The application service around the state machine and its in-memory ports
  * (volcanoes/application/qualification/service.py and in_memory.py).
  */
module QualificationService {
  import opened Wrappers
  import opened QualificationContracts
  import opened StateMachine
  import opened RunChain

  datatype ServiceError =
    | RunAlreadyExists
    | RunNotFound
    | RepositoryGetFailed
    | IdempotencyReadFailed
    | EvidenceRecordingFailed
    | RunSaveFailed
    | SaveConflict
    | IdempotencyWriteFailed

  /** How one port call goes wrong: it raises before or after its write, or a
    * save reports a conflict. */
  datatype Fault = NoFault | FailBefore | FailAfter | ReportConflict

  datatype Faults = Faults(get: Fault, prior: Fault, evidence: Fault, save: Fault, record: Fault)

  const NO_FAULTS := Faults(NoFault, NoFault, NoFault, NoFault, NoFault)

  datatype Outcome =
    | CommandRejected(reason: TransitionError)
    | CommandReplayed(decision: TransitionDecision)
    | CommandAccepted(decision: TransitionDecision, run: PaperQualificationRun)
    | Raised(error: ServiceError)

  datatype Store = Store(
    runs: map<RunId, PaperQualificationRun>,
    records: map<(RunId, IdempotencyKey), PriorCommandRecord>,
    intents: seq<EvidenceIntent>)
  {
    function Prior(c: Command): Option<PriorCommandRecord> {
      if (c.runId, c.key) in records then Some(records[(c.runId, c.key)]) else None
    }
  }

  const EMPTY_STORE := Store(map[], map[], [])

  function LoadOrCreate(runs: map<RunId, PaperQualificationRun>, c: Command)
    : Result<PaperQualificationRun, ServiceError>
  {
    if c.runId in runs then
      var existing := runs[c.runId];
      if c.eventType == StartQualification && c.expectedRevision == 0 && existing.state == NotStarted
      then Err(RunAlreadyExists)
      else Ok(existing)
    else if c.eventType != StartQualification then Err(RunNotFound)
    else Ok(FreshRun(c))
  }

  /** The compare half of the repository's compare-and-swap. */
  predicate CanSave(runs: map<RunId, PaperQualificationRun>, run: PaperQualificationRun, expected: nat) {
    run.runId in runs ==> runs[run.runId].revision == expected
  }

  function RecordOf(c: Command, d: TransitionDecision): PriorCommandRecord {
    PriorCommandRecord(c.key, c.ToEvent().fingerprint, d)
  }

  /** What one uninterrupted `execute` call does to the store, and its outcome. */
  function Execute(s: Store, c: Command, f: Faults): (Store, Outcome) {
    if f.get != NoFault then (s, Raised(RepositoryGetFailed))
    else
      var loaded := LoadOrCreate(s.runs, c);
      if loaded.Err? then (s, Raised(loaded.error))
      else if f.prior != NoFault then (s, Raised(IdempotencyReadFailed))
      else
        var decided := Transition(loaded.value, c.ToEvent(), c.ToContext(s.Prior(c)));
        if decided.Err? then (s, CommandRejected(decided.error))
        else if decided.value.replayed then (s, CommandReplayed(decided.value))
        else Commit(s, c, loaded.value, decided.value, f)
  }

  /** The writes of an accepted command, in order: evidence, run, command record. */
  function Commit(s: Store, c: Command, run: PaperQualificationRun, d: TransitionDecision, f: Faults)
    : (Store, Outcome)
  {
    var result := ApplyTransition(run, d);
    var recorded := s.(intents := s.intents + d.evidence);
    var saved := recorded.(runs := s.runs[result.runId := result]);
    var done := saved.(records := s.records[(c.runId, c.key) := RecordOf(c, d)]);
    if f.evidence == FailBefore then (s, Raised(EvidenceRecordingFailed))
    else if f.evidence != NoFault then (recorded, Raised(EvidenceRecordingFailed))
    else if f.save == FailBefore then (recorded, Raised(RunSaveFailed))
    else if f.save == ReportConflict || !CanSave(s.runs, result, d.previousRevision) then
      (recorded, Raised(SaveConflict))
    else if f.save != NoFault then (saved, Raised(RunSaveFailed))
    else if f.record == FailBefore then (saved, Raised(IdempotencyWriteFailed))
    else if f.record != NoFault then (done, Raised(IdempotencyWriteFailed))
    else (done, CommandAccepted(d, result))
  }

  // ---- The in-memory ports and the service, updated in place ---------------

  class InMemoryQualificationRunRepository {
    var runs: map<RunId, PaperQualificationRun>
    var records: map<(RunId, IdempotencyKey), PriorCommandRecord>
    var failGet: bool
    var failSave: bool
    var conflictSave: bool
    var failRecordCommand: bool

    constructor ()
      ensures runs == map[] && records == map[]
      ensures !failGet && !failSave && !conflictSave && !failRecordCommand
    {
      runs, records := map[], map[];
      failGet, failSave, conflictSave, failRecordCommand := false, false, false, false;
    }

    method Get(runId: RunId) returns (r: Result<Option<PaperQualificationRun>, ()>)
      ensures r == if failGet then Err(()) else Ok(if runId in runs then Some(runs[runId]) else None)
    {
      if failGet { return Err(()); }
      r := Ok(if runId in runs then Some(runs[runId]) else None);
    }

    method Save(run: PaperQualificationRun, expected: nat) returns (r: Result<bool, ()>)
      modifies this`runs
      ensures r == if failSave then Err(()) else Ok(!conflictSave && CanSave(old(runs), run, expected))
      ensures runs == if r == Ok(true) then old(runs)[run.runId := run] else old(runs)
    {
      if failSave { return Err(()); }
      if conflictSave || (run.runId in runs && runs[run.runId].revision != expected) {
        return Ok(false);
      }
      runs := runs[run.runId := run];
      r := Ok(true);
    }

    method PriorCommand(runId: RunId, key: IdempotencyKey) returns (r: Option<PriorCommandRecord>)
      ensures r == if (runId, key) in records then Some(records[(runId, key)]) else None
    {
      r := if (runId, key) in records then Some(records[(runId, key)]) else None;
    }

    method RecordCommand(runId: RunId, record: PriorCommandRecord) returns (ok: bool)
      modifies this`records
      ensures ok == !failRecordCommand
      ensures records == if ok then old(records)[(runId, record.key) := record] else old(records)
    {
      if failRecordCommand { return false; }
      records := records[(runId, record.key) := record];
      ok := true;
    }
  }

  class RecordingQualificationEvidenceRecorder {
    var intents: seq<EvidenceIntent>
    var fail: bool

    constructor ()
      ensures intents == [] && !fail
    {
      intents, fail := [], false;
    }

    method Record(evidence: seq<EvidenceIntent>) returns (ok: bool)
      modifies this`intents
      ensures ok == !fail
      ensures intents == if ok then old(intents) + evidence else old(intents)
    {
      if fail { return false; }
      intents := intents + evidence;
      ok := true;
    }
  }

  class PaperQualificationService {
    const repository: InMemoryQualificationRunRepository
    const recorder: RecordingQualificationEvidenceRecorder

    constructor (repository: InMemoryQualificationRunRepository, recorder: RecordingQualificationEvidenceRecorder)
      ensures this.repository == repository && this.recorder == recorder
    {
      this.repository, this.recorder := repository, recorder;
    }

    ghost function Contents(): Store
      reads repository, recorder
    {
      Store(repository.runs, repository.records, recorder.intents)
    }

    /** The failures the ports are set to produce. */
    ghost function SetFaults(): Faults
      reads repository, recorder
    {
      Faults(if repository.failGet then FailBefore else NoFault,
             NoFault,
             if recorder.fail then FailBefore else NoFault,
             if repository.failSave then FailBefore else if repository.conflictSave then ReportConflict else NoFault,
             if repository.failRecordCommand then FailBefore else NoFault)
    }

    method ExecuteCommand(c: Command) returns (outcome: Outcome)
      modifies repository`runs, repository`records, recorder`intents
      ensures (Contents(), outcome) == Execute(old(Contents()), c, old(SetFaults()))
      ensures outcome == Raised(RunNotFound) <==>
                old(!repository.failGet && c.runId !in repository.runs) && c.eventType != StartQualification
      ensures outcome == Raised(RunNotFound) ==> Contents() == old(Contents())
    {
      hide Transition;
      var read := repository.Get(c.runId);
      if read.Err? {
        return Raised(RepositoryGetFailed);
      }
      var run := FreshRun(c);
      if read.value.Some? {
        run := read.value.value;
        if c.eventType == StartQualification && c.expectedRevision == 0 && run.state == NotStarted {
          return Raised(RunAlreadyExists);
        }
      } else if c.eventType != StartQualification {
        return Raised(RunNotFound);
      }
      var prior := repository.PriorCommand(c.runId, c.key);
      var decided := Transition(run, c.ToEvent(), c.ToContext(prior));
      if decided.Err? {
        return CommandRejected(decided.error);
      }
      var d := decided.value;
      if d.replayed {
        return CommandReplayed(d);
      }
      outcome := CommitDecision(c, run, d);
    }

    method CommitDecision(c: Command, run: PaperQualificationRun, d: TransitionDecision) returns (outcome: Outcome)
      modifies repository`runs, repository`records, recorder`intents
      ensures (Contents(), outcome) == Commit(old(Contents()), c, run, d, old(SetFaults()))
    {
      var result := ApplyTransition(run, d);
      var recorded := recorder.Record(d.evidence);
      if !recorded {
        return Raised(EvidenceRecordingFailed);
      }
      var saved := repository.Save(result, d.previousRevision);
      if saved.Err? {
        return Raised(RunSaveFailed);
      }
      if !saved.value {
        return Raised(SaveConflict);
      }
      var written := repository.RecordCommand(c.runId, RecordOf(c, d));
      if !written {
        return Raised(IdempotencyWriteFailed);
      }
      outcome := CommandAccepted(d, result);
    }
  }

  // ---- Sequential use --------------------------------------------------------

  /** Runs and command records are filed under their own identifiers. */
  ghost predicate WellKeyed(s: Store) {
    && (forall r :: r in s.runs ==> s.runs[r].runId == r)
    && (forall rk :: rk in s.records ==> s.records[rk].key == rk.1)
  }

  /** What one accepted command changes: one version more of its own run, one
    * evidence intent, and one command record where there was none. */
  ghost predicate OneStep(s: Store, s': Store, c: Command, d: TransitionDecision) {
    && WellKeyed(s')
    && (c.runId, c.key) !in s.records
    && s'.records == s.records[(c.runId, c.key) := RecordOf(c, d)]
    && s'.runs.Keys == s.runs.Keys + {c.runId}
    && (forall r :: r in s.runs && r != c.runId ==> s'.runs[r] == s.runs[r])
    && s'.runs[c.runId].revision == c.expectedRevision + 1
    && (c.expectedRevision == if c.runId in s.runs then s.runs[c.runId].revision else 0)
    && |d.evidence| == 1 && s'.intents == s.intents + d.evidence
    && d.evidence[0].runId == c.runId && d.evidence[0].nextRevision == s'.runs[c.runId].revision
  }

  /** A call on failure-free ports either is accepted and makes one step, or
    * leaves the store exactly as it was. */
  lemma ExecuteStepsOrLeaves(s: Store, c: Command)
    requires WellKeyed(s)
    ensures var (s', outcome) := Execute(s, c, NO_FAULTS);
            if outcome.CommandAccepted? then OneStep(s, s', c, outcome.decision) else s' == s
  {
    hide Transition;
    var loaded := LoadOrCreate(s.runs, c);
    if loaded.Ok? {
      var decided := Transition(loaded.value, c.ToEvent(), c.ToContext(s.Prior(c)));
      if decided.Ok? && !decided.value.replayed {
        DecisionFacts(loaded.value, c, s.Prior(c));
      }
    }
  }

  lemma DecisionFacts(run: PaperQualificationRun, c: Command, prior: Option<PriorCommandRecord>)
    requires var t := Transition(run, c.ToEvent(), c.ToContext(prior)); t.Ok? && !t.value.replayed
    ensures var d := Transition(run, c.ToEvent(), c.ToContext(prior)).value;
            && d.previousRevision == run.revision == c.expectedRevision
            && d.nextRevision == run.revision + 1
            && |d.evidence| == 1 && d.evidence[0].runId == run.runId
            && d.evidence[0].nextRevision == run.revision + 1
    ensures prior.None? || prior.value.key != c.key
  {
    hide Row, RequiredGuards, FindTransition, SourceMatches;
    AcceptedExactlyWhen(run, c.ToEvent(), c.ToContext(prior), 0);
  }

  /** The store after a log of commands whose ports never fail. */
  function RunLog(s: Store, log: seq<Command>): Store
    decreases |log|
  {
    if log == [] then s else RunLog(Execute(s, log[0], NO_FAULTS).0, log[1..])
  }

  /** The commands of the log that are accepted and not replayed. */
  function Effective(s: Store, log: seq<Command>): seq<Command>
    decreases |log|
  {
    if log == [] then []
    else
      var rest := Effective(Execute(s, log[0], NO_FAULTS).0, log[1..]);
      if Execute(s, log[0], NO_FAULTS).1.CommandAccepted? then [log[0]] + rest else rest
  }

  /** Replay erasure: dropping every replayed and every refused command leaves
    * runs, command records and evidence as they were, and what remains is
    * accepted command by command. */
  lemma {:induction false} ReplayErasure(s: Store, log: seq<Command>)
    requires WellKeyed(s)
    ensures RunLog(s, Effective(s, log)) == RunLog(s, log)
    ensures Effective(s, Effective(s, log)) == Effective(s, log)
    decreases |log|
  {
    hide Execute, OneStep;
    if log != [] {
      var (s', outcome) := Execute(s, log[0], NO_FAULTS);
      var rest := Effective(s', log[1..]);
      ExecuteStepsOrLeaves(s, log[0]);
      StepWellKeyed(s, log[0]);
      ReplayErasure(s', log[1..]);
      if outcome.CommandAccepted? {
        assert ([log[0]] + rest)[1..] == rest;
      }
    }
  }

  lemma StepWellKeyed(s: Store, c: Command)
    requires WellKeyed(s)
    ensures WellKeyed(Execute(s, c, NO_FAULTS).0)
  {
    hide Execute;
    ExecuteStepsOrLeaves(s, c);
  }

  /** How many commands of the log change run `r` under key `k`. */
  function Uses(s: Store, log: seq<Command>, r: RunId, k: IdempotencyKey): nat
    decreases |log|
  {
    if log == [] then 0
    else
      var (s', outcome) := Execute(s, log[0], NO_FAULTS);
      Uses(s', log[1..], r, k)
      + if outcome.CommandAccepted? && log[0].runId == r && log[0].key == k then 1 else 0
  }

  /** Command records are write-once, and a key changes a run at most once, and
    * never when a record of it exists already. */
  lemma {:induction false} KeyChangesRunOnce(s: Store, log: seq<Command>, r: RunId, k: IdempotencyKey)
    requires WellKeyed(s)
    ensures forall rk :: rk in s.records ==>
                           rk in RunLog(s, log).records && RunLog(s, log).records[rk] == s.records[rk]
    ensures Uses(s, log, r, k) <= if (r, k) in s.records then 0 else 1
    decreases |log|
  {
    hide Execute;
    if log != [] {
      var (s', outcome) := Execute(s, log[0], NO_FAULTS);
      ExecuteStepsOrLeaves(s, log[0]);
      StepWellKeyed(s, log[0]);
      KeyChangesRunOnce(s', log[1..], r, k);
    }
  }

  /** The call saved a version of its run. */
  predicate Wrote(s: Store, c: Command, f: Faults) { Execute(s, c, f).0.runs != s.runs }

  /** The ports that fail so as to lose the record of a version: the call would have
    * been accepted, and the save raises after its write or the record before it. */
  predicate LosesRecord(f: Faults) {
    && f.get == NoFault && f.prior == NoFault && f.evidence == NoFault
    && (f.save == FailAfter || (f.save == NoFault && f.record == FailBefore))
  }

  predicate LostRecord(s: Store, c: Command, f: Faults) {
    Execute(s, c, NO_FAULTS).1.CommandAccepted? && LosesRecord(f)
  }

  /** Records only grow, by the call's own; a call under a recorded key writes no
    * version; and it writes a version without a record exactly when its ports fail
    * as `LosesRecord` says. */
  ghost predicate FaultFacts(s: Store, c: Command, f: Faults) {
    var s' := Execute(s, c, f).0;
    && WellKeyed(s')
    && (forall rk :: rk in s.records ==> rk in s'.records)
    && (forall rk :: rk in s'.records ==> rk in s.records || rk == (c.runId, c.key))
    && (Wrote(s, c, f) ==> (c.runId, c.key) !in s.records)
    && ((c.runId, c.key) in s'.records && (c.runId, c.key) !in s.records ==> Wrote(s, c, f))
    && (LostRecord(s, c, f) <==> Wrote(s, c, f) && (c.runId, c.key) !in s'.records)
  }

  lemma FaultyCall(s: Store, c: Command, f: Faults)
    requires WellKeyed(s)
    ensures FaultFacts(s, c, f)
  {
    hide Transition, Commit, ApplyTransition;
    var loaded := LoadOrCreate(s.runs, c);
    if loaded.Ok? {
      var decided := Transition(loaded.value, c.ToEvent(), c.ToContext(s.Prior(c)));
      if decided.Ok? && !decided.value.replayed {
        DecisionFacts(loaded.value, c, s.Prior(c));
        FaultyCommit(s, c, loaded.value, decided.value, f);
        FaultyCommit(s, c, loaded.value, decided.value, NO_FAULTS);
      }
    }
  }

  /** The same of the writes alone. */
  lemma FaultyCommit(s: Store, c: Command, run: PaperQualificationRun, d: TransitionDecision, f: Faults)
    requires WellKeyed(s) && LoadOrCreate(s.runs, c) == Ok(run)
    requires (c.runId, c.key) !in s.records && d.previousRevision == run.revision && d.nextRevision == run.revision + 1
    ensures var (s', outcome) := Commit(s, c, run, d, f);
            && WellKeyed(s')
            && s'.records == (if (c.runId, c.key) in s'.records
                              then s.records[(c.runId, c.key) := RecordOf(c, d)] else s.records)
            && (s'.runs != s.runs <==>
                  f.evidence == NoFault && (f.save == NoFault || f.save == FailAfter))
            && ((c.runId, c.key) in s'.records <==>
                  f.evidence == NoFault && f.save == NoFault && f.record != FailBefore)
            && (f == NO_FAULTS ==> outcome.CommandAccepted?)
  {
    CommitSaves(s, c, run, d);
  }

  lemma CommitSaves(s: Store, c: Command, run: PaperQualificationRun, d: TransitionDecision)
    requires WellKeyed(s) && LoadOrCreate(s.runs, c) == Ok(run) && d.previousRevision == run.revision
    requires d.nextRevision == run.revision + 1
    ensures var result := ApplyTransition(run, d);
            && result.runId == c.runId && CanSave(s.runs, result, d.previousRevision)
            && s.runs[result.runId := result] != s.runs
  {
    var result := ApplyTransition(run, d);
    assert s.runs[result.runId := result][result.runId] == result;
  }

  predicate UnderKey(c: Command, r: RunId, k: IdempotencyKey) { c.runId == r && c.key == k }

  /** Versions of run `r` written under key `k`, and command records of it lost,
    * in a log of calls with failures. */
  function Writes(s: Store, log: seq<(Command, Faults)>, r: RunId, k: IdempotencyKey): nat
    decreases |log|
  {
    if log == [] then 0
    else
      var (c, f) := log[0];
      Writes(Execute(s, c, f).0, log[1..], r, k) + if UnderKey(c, r, k) && Wrote(s, c, f) then 1 else 0
  }

  function Losses(s: Store, log: seq<(Command, Faults)>, r: RunId, k: IdempotencyKey): nat
    decreases |log|
  {
    if log == [] then 0
    else
      var (c, f) := log[0];
      Losses(Execute(s, c, f).0, log[1..], r, k) + if UnderKey(c, r, k) && LostRecord(s, c, f) then 1 else 0
  }

  function RunFaulty(s: Store, log: seq<(Command, Faults)>): Store
    decreases |log|
  {
    if log == [] then s else RunFaulty(Execute(s, log[0].0, log[0].1).0, log[1..])
  }

  function Held(s: Store, r: RunId, k: IdempotencyKey): nat { if (r, k) in s.records then 1 else 0 }

  /** Under any failures the versions written under a key are exactly its lost
    * records plus the record it gained: so it writes more than one version if and
    * only if it loses a record and is used again. */
  lemma {:induction false} KeyUnderFaults(s: Store, log: seq<(Command, Faults)>, r: RunId, k: IdempotencyKey)
    requires WellKeyed(s)
    ensures Writes(s, log, r, k) + Held(s, r, k) == Losses(s, log, r, k) + Held(RunFaulty(s, log), r, k)
    ensures Losses(s, log, r, k) == 0 ==> Writes(s, log, r, k) <= 1
    decreases |log|
  {
    hide Execute, WellKeyed;
    if log != [] {
      var (c, f) := log[0];
      FaultyCall(s, c, f);
      KeyUnderFaults(Execute(s, c, f).0, log[1..], r, k);
    }
  }

  /** Losses do happen to matter: the key of a saved command whose record was
    * never written can change the run again. */
  lemma LostRecordLetsKeyActAgain() returns (first: Command, second: Command)
    ensures first.key == second.key && first.runId == second.runId && first != second
    ensures var (s, outcome) := Execute(EMPTY_STORE, first, NO_FAULTS.(record := FailBefore));
            outcome == Raised(IdempotencyWriteFailed) && Execute(s, second, NO_FAULTS).1.CommandAccepted?
  {
    hide Row, RequiredGuards, Transition, SourceMatches, Commit, Execute, ApplyTransition, Candidate, GuardsMet;
    first := Command("run", "scenario", "correlation", StartQualification, 0, "c1", "key", Operator,
                     {ScenarioAuthorized, PaperEnvironment}, [], None, "PAPER", None);
    second := first.(eventType := PrechecksFailed, expectedRevision := 1, commandId := "c2",
                     guards := {EvidenceAvailable});
    StartRows();
    var start := StepFor(FreshRun(first), first, 1);
    StepNoPrior(start);
    StartedIsLost(first, start);
    var fail := StepFor(start.after, second, 3);
    StepNoPrior(fail);
    SecondIsSaved(Execute(EMPTY_STORE, first, NO_FAULTS.(record := FailBefore)).0, second, fail);
  }

  /** A first command on an empty store whose record cannot be written: the run is
    * saved, the key unknown. */
  lemma StartedIsLost(c: Command, step: SavedStep)
    requires c.eventType == StartQualification && c.expectedRevision == 0
    requires step.before == FreshRun(c) && step.command == c && !step.decision.replayed
    requires Transition(step.before, c.ToEvent(), c.ToContext(None)) == Ok(step.decision)
    requires step.after == ApplyTransition(step.before, step.decision) && step.decision.previousRevision == 0
    requires step.after.runId == c.runId && step.after.revision == 1
    ensures var (s, outcome) := Execute(EMPTY_STORE, c, NO_FAULTS.(record := FailBefore));
            && outcome == Raised(IdempotencyWriteFailed)
            && s.runs == map[c.runId := step.after] && s.records == map[]
  {
    hide Transition, ApplyTransition;
  }

  lemma SecondIsSaved(s: Store, c: Command, step: SavedStep)
    requires s.runs == map[c.runId := step.before] && s.records == map[]
    requires step.command == c && !step.decision.replayed
    requires Transition(step.before, c.ToEvent(), c.ToContext(None)) == Ok(step.decision)
    requires step.after == ApplyTransition(step.before, step.decision)
    requires step.after.runId == c.runId && step.after.revision == step.before.revision + 1
    requires step.decision.previousRevision == step.before.revision
    requires LoadOrCreate(s.runs, c) == Ok(step.before)
    ensures Execute(s, c, NO_FAULTS).1.CommandAccepted?
  {
    hide Transition, ApplyTransition;
  }

  lemma StartRows()
    ensures Candidate(1, NotStarted, StartQualification) && GuardsMet(1, {ScenarioAuthorized, PaperEnvironment})
    ensures Candidate(3, PrecheckPending, PrechecksFailed) && GuardsMet(3, {EvidenceAvailable})
    ensures Row(1).destination == Some(PrecheckPending)
  {
    hide RowSound;
  }

  lemma StepNoPrior(s: SavedStep)
    requires ValidStep(s) && s.prior.None?
    ensures Transition(s.before, s.command.ToEvent(), s.command.ToContext(None)) == Ok(s.decision)
    ensures FollowsRow(s) && s.decision.previousRevision == s.before.revision
    ensures s.after == ApplyTransition(s.before, s.decision)
  {
    hide Transition, FollowsRow;
    StepRow(s);
    DecisionFacts(s.before, s.command, None);
  }
}
