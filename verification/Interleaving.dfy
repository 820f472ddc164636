/** Any number of concurrent `execute` calls as interleaved atomic steps.
  * Each call is a thread that reads the run, reads the prior command and
  * decides, records evidence, compare-and-swaps the run, and records the
  * command; every port call may fail before or after its write.
  */
module Interleaving {
  import opened Wrappers
  import opened QualificationContracts
  import opened StateMachine
  import opened RunChain
  import opened QualificationService

  datatype Thread =
    | AtReadRun(c: Command)
    | AtReadPrior(c: Command, run: PaperQualificationRun)
    | AtEvidence(c: Command, run: PaperQualificationRun, prior: Option<PriorCommandRecord>, d: TransitionDecision)
    | AtSave(c: Command, run: PaperQualificationRun, prior: Option<PriorCommandRecord>, d: TransitionDecision)
    | AtRecord(c: Command, run: PaperQualificationRun, d: TransitionDecision)
    | Done(c: Command, outcome: Outcome)

  /** `history` lists, run by run, the transitions that were saved. */
  datatype World = World(store: Store, threads: map<nat, Thread>, history: map<RunId, seq<SavedStep>>)

  const INITIAL := World(EMPTY_STORE, map[], map[])

  datatype Action = Call(t: nat, c: Command) | Step(t: nat, fault: Fault)

  function History(w: World, r: RunId): seq<SavedStep> {
    if r in w.history then w.history[r] else []
  }

  /** One atomic step of a thread on the store. */
  function Advance(s: Store, pc: Thread, fault: Fault): (Store, Thread) {
    match pc
    case AtReadRun(c) =>
      if fault != NoFault then (s, Done(c, Raised(RepositoryGetFailed)))
      else
        var loaded := LoadOrCreate(s.runs, c);
        if loaded.Err? then (s, Done(c, Raised(loaded.error))) else (s, AtReadPrior(c, loaded.value))
    case AtReadPrior(c, run) =>
      if fault != NoFault then (s, Done(c, Raised(IdempotencyReadFailed)))
      else
        var decided := Transition(run, c.ToEvent(), c.ToContext(s.Prior(c)));
        if decided.Err? then (s, Done(c, CommandRejected(decided.error)))
        else if decided.value.replayed then (s, Done(c, CommandReplayed(decided.value)))
        else (s, AtEvidence(c, run, s.Prior(c), decided.value))
    case AtEvidence(c, run, prior, d) =>
      var s' := s.(intents := s.intents + d.evidence);
      if fault == FailBefore then (s, Done(c, Raised(EvidenceRecordingFailed)))
      else if fault != NoFault then (s', Done(c, Raised(EvidenceRecordingFailed)))
      else (s', AtSave(c, run, prior, d))
    case AtSave(c, run, prior, d) =>
      var saved := s.(runs := s.runs[ApplyTransition(run, d).runId := ApplyTransition(run, d)]);
      if fault == FailBefore then (s, Done(c, Raised(RunSaveFailed)))
      else if !SaveWrites(s, pc, fault) then (s, Done(c, Raised(SaveConflict)))
      else if fault != NoFault then (saved, Done(c, Raised(RunSaveFailed)))
      else (saved, AtRecord(c, run, d))
    case AtRecord(c, run, d) =>
      var s' := s.(records := s.records[(c.runId, c.key) := RecordOf(c, d)]);
      if fault == FailBefore then (s, Done(c, Raised(IdempotencyWriteFailed)))
      else if fault != NoFault then (s', Done(c, Raised(IdempotencyWriteFailed)))
      else (s', Done(c, CommandAccepted(d, ApplyTransition(run, d))))
    case Done(_, _) => (s, pc)
  }

  /** The step is a save that goes through the compare-and-swap. */
  predicate SaveWrites(s: Store, pc: Thread, fault: Fault) {
    && pc.AtSave?
    && (fault == NoFault || fault == FailAfter)
    && CanSave(s.runs, ApplyTransition(pc.run, pc.d), pc.d.previousRevision)
  }

  function Entry(t: nat, pc: Thread): SavedStep
    requires pc.AtSave?
  {
    SavedStep(t, pc.c, pc.prior, pc.run, pc.d, ApplyTransition(pc.run, pc.d))
  }

  /** A new call takes an unused thread name; a step moves one thread. */
  function Next(w: World, a: Action): World {
    match a
    case Call(t, c) => if t in w.threads then w else w.(threads := w.threads[t := AtReadRun(c)])
    case Step(t, fault) =>
      if t !in w.threads then w
      else
        var pc := w.threads[t];
        var (s', pc') := Advance(w.store, pc, fault);
        World(s', w.threads[t := pc'],
              if SaveWrites(w.store, pc, fault)
              then w.history[pc.c.runId := History(w, pc.c.runId) + [Entry(t, pc)]]
              else w.history)
  }

  function Run(w: World, actions: seq<Action>): World
    decreases |actions|
  {
    if actions == [] then w else Run(Next(w, actions[0]), actions[1..])
  }

  // ---- The invariant ---------------------------------------------------------

  /** The stored run is the end of its history, and the history is a chain. */
  ghost predicate RunInv(runs: map<RunId, PaperQualificationRun>, r: RunId, h: seq<SavedStep>) {
    && ValidChain(h)
    && (r in runs <==> h != [])
    && (h != [] ==> runs[r] == h[|h| - 1].after && h[0].command.runId == r)
    && (h != [] ==> h[0].command.eventType == StartQualification)
  }

  /** The run a thread holds is the fresh one, which only a start creates, or some
    * saved version. */
  ghost predicate Snapshot(h: seq<SavedStep>, c: Command, run: PaperQualificationRun) {
    && run.runId == c.runId
    && run.revision <= |h|
    && run == (if run.revision == 0 then FreshRun(c) else h[run.revision - 1].after)
    && (run.revision == 0 ==> c.eventType == StartQualification)
  }

  ghost predicate Decided(c: Command, run: PaperQualificationRun, prior: Option<PriorCommandRecord>,
                          d: TransitionDecision)
  {
    Transition(run, c.ToEvent(), c.ToContext(prior)) == Ok(d) && !d.replayed
  }

  /** Thread `t` wrote version d.nextRevision of its run. */
  ghost predicate SavedBy(h: seq<SavedStep>, t: nat, c: Command, d: TransitionDecision) {
    && d.previousRevision < |h|
    && h[d.previousRevision].caller == t
    && h[d.previousRevision].command == c
    && h[d.previousRevision].decision == d
  }

  /** Some saved step was made under this record. */
  ghost predicate Recorded(h: seq<SavedStep>, record: PriorCommandRecord) {
    exists i :: 0 <= i < |h| && h[i].decision == record.decision && h[i].command.key == record.key
             && h[i].command.ToEvent().fingerprint == record.fingerprint
  }

  ghost predicate Covered(d: TransitionDecision, intents: seq<EvidenceIntent>) {
    forall e :: e in d.evidence ==> e in intents
  }

  ghost predicate ThreadInv(h: seq<SavedStep>, intents: seq<EvidenceIntent>, t: nat, pc: Thread) {
    match pc
    case AtReadRun(_) => true
    case AtReadPrior(c, run) => Snapshot(h, c, run)
    case AtEvidence(c, run, prior, d) => Snapshot(h, c, run) && Decided(c, run, prior, d)
    case AtSave(c, run, prior, d) => Snapshot(h, c, run) && Decided(c, run, prior, d) && Covered(d, intents)
    case AtRecord(c, _, d) => SavedBy(h, t, c, d)
    case Done(c, outcome) => outcome.CommandAccepted? ==> SavedBy(h, t, c, outcome.decision)
  }

  ghost predicate Inv(w: World) {
    && (forall r :: RunInv(w.store.runs, r, History(w, r)))
    && (forall t :: t in w.threads ==> ThreadInv(History(w, w.threads[t].c.runId), w.store.intents, t, w.threads[t]))
    && (forall r, i :: 0 <= i < |History(w, r)| ==> Covered(History(w, r)[i].decision, w.store.intents))
    && (forall e :: e in w.store.intents ==> e.nextRevision <= |History(w, e.runId)| + 1)
    && (forall rk :: rk in w.store.records ==> Recorded(History(w, rk.0), w.store.records[rk]))
  }

  // ---- One thread, one step ----------------------------------------------------

  function HistoryAfter(s: Store, h: seq<SavedStep>, t: nat, pc: Thread, fault: Fault): seq<SavedStep> {
    if SaveWrites(s, pc, fault) then h + [Entry(t, pc)] else h
  }

  /** What a step does to its own run's history, its own state and the store. */
  ghost predicate StepKeeps(s: Store, h: seq<SavedStep>, t: nat, pc: Thread, fault: Fault) {
    var (s', pc') := Advance(s, pc, fault);
    var h' := HistoryAfter(s, h, t, pc, fault);
    && pc'.c == pc.c
    && RunInv(s'.runs, pc.c.runId, h')
    && ThreadInv(h', s'.intents, t, pc')
    && s.intents <= s'.intents
    && (forall r :: r != pc.c.runId ==> (r in s'.runs <==> r in s.runs))
    && (forall r :: r != pc.c.runId && r in s.runs ==> s'.runs[r] == s.runs[r])
    && (forall e :: e in s'.intents ==> e in s.intents || (e.runId == pc.c.runId && e.nextRevision <= |h| + 1))
    && (SaveWrites(s, pc, fault) ==> Covered(pc.d, s'.intents))
    && (forall rk :: rk in s'.records ==>
                       || (rk in s.records && s'.records[rk] == s.records[rk])
                       || (rk.0 == pc.c.runId && Recorded(h', s'.records[rk])))
  }

  lemma ReadSteps(s: Store, h: seq<SavedStep>, t: nat, pc: Thread, fault: Fault)
    requires RunInv(s.runs, pc.c.runId, h) && ThreadInv(h, s.intents, t, pc)
    requires pc.AtReadRun? || pc.AtReadPrior?
    ensures StepKeeps(s, h, t, pc, fault)
  {
    hide Transition, ValidStep, Recorded, Covered;
    if pc.AtReadRun? && h != [] {
      ChainRevisions(h, |h| - 1);
    }
  }

  lemma EvidenceSteps(s: Store, h: seq<SavedStep>, t: nat, pc: Thread, fault: Fault)
    requires RunInv(s.runs, pc.c.runId, h) && ThreadInv(h, s.intents, t, pc)
    requires pc.AtEvidence?
    ensures StepKeeps(s, h, t, pc, fault)
  {
    hide Transition, ValidStep, Recorded;
    DecisionFacts(pc.run, pc.c, pc.prior);
    assert pc.d.evidence == [pc.d.evidence[0]];
  }

  lemma SaveSteps(s: Store, h: seq<SavedStep>, t: nat, pc: Thread, fault: Fault)
    requires RunInv(s.runs, pc.c.runId, h) && ThreadInv(h, s.intents, t, pc)
    requires pc.AtSave?
    ensures StepKeeps(s, h, t, pc, fault)
  {
    hide Transition, ValidChain, Recorded, Covered;
    if SaveWrites(s, pc, fault) {
      DecisionFacts(pc.run, pc.c, pc.prior);
      if h != [] {
        ChainRevisions(h, |h| - 1);
      }
      ChainAppend(h, Entry(t, pc));
    }
  }

  lemma RecordSteps(s: Store, h: seq<SavedStep>, t: nat, pc: Thread, fault: Fault)
    requires RunInv(s.runs, pc.c.runId, h) && ThreadInv(h, s.intents, t, pc)
    requires pc.AtRecord? || pc.Done?
    ensures StepKeeps(s, h, t, pc, fault)
  {
    hide Transition, ValidChain, Covered;
    if pc.AtRecord? {
      assert h[pc.d.previousRevision].decision == RecordOf(pc.c, pc.d).decision;
    }
  }

  lemma AdvanceKeeps(s: Store, h: seq<SavedStep>, t: nat, pc: Thread, fault: Fault)
    requires RunInv(s.runs, pc.c.runId, h) && ThreadInv(h, s.intents, t, pc)
    ensures StepKeeps(s, h, t, pc, fault)
  {
    hide RunInv, ThreadInv, StepKeeps;
    match pc
    case AtReadRun(_) => ReadSteps(s, h, t, pc, fault);
    case AtReadPrior(_, _) => ReadSteps(s, h, t, pc, fault);
    case AtEvidence(_, _, _, _) => EvidenceSteps(s, h, t, pc, fault);
    case AtSave(_, _, _, _) => SaveSteps(s, h, t, pc, fault);
    case AtRecord(_, _, _) => RecordSteps(s, h, t, pc, fault);
    case Done(_, _) => RecordSteps(s, h, t, pc, fault);
  }

  /** Growing histories and evidence disturb no other thread. */
  lemma ThreadInvGrows(h: seq<SavedStep>, h': seq<SavedStep>, xs: seq<EvidenceIntent>, xs': seq<EvidenceIntent>,
                       t: nat, pc: Thread)
    requires ThreadInv(h, xs, t, pc) && h <= h' && xs <= xs'
    ensures ThreadInv(h', xs', t, pc)
  {
    hide Decided;
  }

  lemma RecordedGrows(h: seq<SavedStep>, h': seq<SavedStep>, record: PriorCommandRecord)
    requires Recorded(h, record) && h <= h'
    ensures Recorded(h', record)
  {
    var i :| 0 <= i < |h| && h[i].decision == record.decision && h[i].command.key == record.key
             && h[i].command.ToEvent().fingerprint == record.fingerprint;
    assert h'[i] == h[i];
  }

  // ---- All threads, every run --------------------------------------------------

  /** Facts about one step seen from the whole world. */
  lemma StepFrame(w: World, t: nat, fault: Fault)
    requires Inv(w) && t in w.threads
    ensures var pc := w.threads[t];
            var w' := Next(w, Step(t, fault));
            && StepKeeps(w.store, History(w, pc.c.runId), t, pc, fault)
            && (w'.store, w'.threads[t]) == Advance(w.store, pc, fault)
            && w'.threads == w.threads[t := w'.threads[t]]
            && History(w', pc.c.runId) == HistoryAfter(w.store, History(w, pc.c.runId), t, pc, fault)
            && (forall r :: r != pc.c.runId ==> History(w', r) == History(w, r))
            && (forall r :: History(w, r) <= History(w', r))
  {
    hide RunInv, ThreadInv, StepKeeps, Advance, SaveWrites, Recorded, Covered;
    AdvanceKeeps(w.store, History(w, w.threads[t].c.runId), t, w.threads[t], fault);
  }

  lemma StepKeepsRuns(w: World, t: nat, fault: Fault)
    requires Inv(w) && t in w.threads
    ensures var w' := Next(w, Step(t, fault));
            forall r :: RunInv(w'.store.runs, r, History(w', r))
  {
    hide ThreadInv, Advance, SaveWrites, Recorded, Covered, Next, ValidChain;
    StepFrame(w, t, fault);
    var w' := Next(w, Step(t, fault));
    forall r ensures RunInv(w'.store.runs, r, History(w', r)) {
      assert RunInv(w.store.runs, r, History(w, r));
    }
  }

  lemma StepKeepsThreads(w: World, t: nat, fault: Fault)
    requires Inv(w) && t in w.threads
    ensures var w' := Next(w, Step(t, fault));
            forall u :: u in w'.threads ==>
                          ThreadInv(History(w', w'.threads[u].c.runId), w'.store.intents, u, w'.threads[u])
  {
    hide RunInv, ThreadInv, Advance, SaveWrites, Recorded, Covered, Next, HistoryAfter;
    StepFrame(w, t, fault);
    var w' := Next(w, Step(t, fault));
    forall u | u in w'.threads
      ensures ThreadInv(History(w', w'.threads[u].c.runId), w'.store.intents, u, w'.threads[u])
    {
      if u != t {
        var r := w.threads[u].c.runId;
        ThreadInvGrows(History(w, r), History(w', r), w.store.intents, w'.store.intents, u, w.threads[u]);
      }
    }
  }

  lemma StepKeepsEvidence(w: World, t: nat, fault: Fault)
    requires Inv(w) && t in w.threads
    ensures var w' := Next(w, Step(t, fault));
            && (forall r, i :: 0 <= i < |History(w', r)| ==> Covered(History(w', r)[i].decision, w'.store.intents))
            && (forall e :: e in w'.store.intents ==> e.nextRevision <= |History(w', e.runId)| + 1)
  {
    hide RunInv, ThreadInv, Advance, SaveWrites, Recorded, Next;
    StepFrame(w, t, fault);
    var w' := Next(w, Step(t, fault));
    forall r, i | 0 <= i < |History(w', r)| ensures Covered(History(w', r)[i].decision, w'.store.intents) {
      if i < |History(w, r)| {
        assert History(w', r)[i] == History(w, r)[i];
        assert Covered(History(w, r)[i].decision, w.store.intents);
      }
    }
    forall e | e in w'.store.intents ensures e.nextRevision <= |History(w', e.runId)| + 1 {
      assert History(w, e.runId) <= History(w', e.runId);
    }
  }

  lemma StepKeepsRecords(w: World, t: nat, fault: Fault)
    requires Inv(w) && t in w.threads
    ensures var w' := Next(w, Step(t, fault));
            forall rk :: rk in w'.store.records ==> Recorded(History(w', rk.0), w'.store.records[rk])
  {
    hide RunInv, ThreadInv, Advance, SaveWrites, Recorded, Covered, Next, HistoryAfter;
    StepFrame(w, t, fault);
    var w' := Next(w, Step(t, fault));
    forall rk | rk in w'.store.records ensures Recorded(History(w', rk.0), w'.store.records[rk]) {
      if rk in w.store.records && w'.store.records[rk] == w.store.records[rk] {
        RecordedGrows(History(w, rk.0), History(w', rk.0), w.store.records[rk]);
      }
    }
  }

  lemma StepKeepsInv(w: World, t: nat, fault: Fault)
    requires Inv(w) && t in w.threads
    ensures Inv(Next(w, Step(t, fault)))
    ensures forall r :: History(w, r) <= History(Next(w, Step(t, fault)), r)
  {
    hide RunInv, ThreadInv, Recorded, Covered, Advance, SaveWrites, Next, History;
    StepKeepsRuns(w, t, fault);
    StepKeepsThreads(w, t, fault);
    StepKeepsEvidence(w, t, fault);
    StepKeepsRecords(w, t, fault);
    StepFrame(w, t, fault);
  }

  lemma NextKeepsInv(w: World, a: Action)
    requires Inv(w)
    ensures Inv(Next(w, a))
    ensures forall r :: History(w, r) <= History(Next(w, a), r)
  {
    hide RunInv, Recorded, Covered, Advance, SaveWrites;
    match a
    case Call(t, c) =>
      assert forall r :: History(Next(w, a), r) == History(w, r);
    case Step(t, fault) =>
      if t in w.threads {
        StepKeepsInv(w, t, fault);
      } else {
        assert Next(w, a) == w;
      }
  }

  /** Saved versions are never rewritten: histories only grow. */
  lemma {:induction false} RunKeepsInv(w: World, actions: seq<Action>)
    requires Inv(w)
    ensures Inv(Run(w, actions))
    ensures forall r :: History(w, r) <= History(Run(w, actions), r)
    decreases |actions|
  {
    hide Inv, Next, History;
    if actions != [] {
      NextKeepsInv(w, actions[0]);
      RunKeepsInv(Next(w, actions[0]), actions[1..]);
    }
  }

  lemma ReachableInv(actions: seq<Action>)
    ensures Inv(Run(INITIAL, actions))
  {
    assert Inv(INITIAL);
    RunKeepsInv(INITIAL, actions);
  }

  // ---- What every interleaving guarantees ----------------------------------------

  /** In every interleaving, with any port failures, the saved versions of a run
    * form one chain: the stored run is version |h|, version i+1 was decided from
    * exactly version i, and its evidence was recorded. */
  lemma OneChain(actions: seq<Action>, r: RunId)
    ensures var w := Run(INITIAL, actions);
            var h := History(w, r);
            && ValidChain(h)
            && (r in w.store.runs <==> h != [])
            && (h != [] ==> w.store.runs[r] == h[|h| - 1].after && w.store.runs[r].revision == |h|)
            && (forall i :: 0 <= i < |h| ==>
                              && h[i].before.revision == i && h[i].after.revision == i + 1
                              && h[i].command.runId == r && h[i].command.expectedRevision == i
                              && forall e :: e in h[i].decision.evidence ==> e in w.store.intents)
  {
    hide ValidChain, ThreadInv, Recorded, Run;
    ReachableInv(actions);
    var w := Run(INITIAL, actions);
    var h := History(w, r);
    assert RunInv(w.store.runs, r, h);
    forall i | 0 <= i < |h|
      ensures && h[i].before.revision == i && h[i].after.revision == i + 1
              && h[i].command.runId == r && h[i].command.expectedRevision == i
              && forall e :: e in h[i].decision.evidence ==> e in w.store.intents
    {
      ChainRevisions(h, i);
      assert Covered(h[i].decision, w.store.intents);
    }
    if h != [] {
      assert h[|h| - 1].after.revision == |h|;
    }
  }

  /** In every interleaving a run begins with START_QUALIFICATION: no other command
    * ever creates one. */
  lemma RunsBeginWithStart(actions: seq<Action>, r: RunId)
    ensures var h := History(Run(INITIAL, actions), r);
            h != [] ==> h[0].command.eventType == StartQualification && h[0].before == FreshRun(h[0].command)
    ensures r in Run(INITIAL, actions).store.runs ==> History(Run(INITIAL, actions), r) != []
  {
    hide ThreadInv, Recorded, Covered, Run, ValidStep, History;
    ReachableInv(actions);
    var w := Run(INITIAL, actions);
    assert RunInv(w.store.runs, r, History(w, r));
  }

  /** One winner for each revision: no two accepted calls wrote the same version. */
  lemma OneWinner(actions: seq<Action>, t: nat, u: nat)
    requires var ts := Run(INITIAL, actions).threads;
             && t in ts && u in ts && t != u
             && ts[t].Done? && ts[t].outcome.CommandAccepted?
             && ts[u].Done? && ts[u].outcome.CommandAccepted?
             && ts[t].c.runId == ts[u].c.runId
    ensures var ts := Run(INITIAL, actions).threads;
            ts[t].outcome.decision.previousRevision != ts[u].outcome.decision.previousRevision
  {
    hide RunInv, Recorded, Run, Covered, History;
    ReachableInv(actions);
    var w := Run(INITIAL, actions);
    assert ThreadInv(History(w, w.threads[t].c.runId), w.store.intents, t, w.threads[t]);
    assert ThreadInv(History(w, w.threads[u].c.runId), w.store.intents, u, w.threads[u]);
  }

  /** Evidence is never more than one revision ahead of the saved run, and a
    * stored command record always names a saved step. */
  lemma EvidenceAtMostOneAhead(actions: seq<Action>)
    ensures var w := Run(INITIAL, actions);
            && (forall e :: e in w.store.intents ==>
                              e.nextRevision
                              <= 1 + if e.runId in w.store.runs then w.store.runs[e.runId].revision else 0)
            && (forall rk :: rk in w.store.records ==> Recorded(History(w, rk.0), w.store.records[rk]))
  {
    hide ValidChain, ThreadInv, Recorded, Run, History;
    ReachableInv(actions);
    var w := Run(INITIAL, actions);
    forall e | e in w.store.intents
      ensures e.nextRevision <= 1 + if e.runId in w.store.runs then w.store.runs[e.runId].revision else 0
    {
      OneChain(actions, e.runId);
    }
  }

  /** No command is applied twice, however often and however concurrently it is
    * retried and whatever fails. */
  lemma NoCommandTwice(actions: seq<Action>, r: RunId, i: nat, j: nat)
    requires i < j < |History(Run(INITIAL, actions), r)|
    ensures var h := History(Run(INITIAL, actions), r);
            h[i].command != h[j].command
  {
    hide ValidChain, Run, History;
    OneChain(actions, r);
  }

  /** Safety of the broker request in every interleaving: the saved decisions ask
    * for it exactly once for each restart that reopens a request, and once more
    * unless the last request has been reopened; with faithful restarts they ask at
    * most once, after a saved approval and submission start. */
  lemma BrokerRequestSafety(actions: seq<Action>, r: RunId)
    ensures var h := History(Run(INITIAL, actions), r);
            && SendCount(h) == Reopenings(h) + (if SentSince(h) then 1 else 0)
            && (Faithful(h) ==>
                  && SendCount(h) <= 1
                  && forall k :: 0 <= k < |h| && Sends(h[k]) ==>
                                   exists i, j :: 0 <= i < j < k && h[i].command.eventType == OperatorApproved
                                               && h[j].command.eventType == SubmissionStarted)
  {
    hide ValidChain, Run, History, Faithful, Sends, SendCount, Reopenings, SentSince;
    OneChain(actions, r);
    var h := History(Run(INITIAL, actions), r);
    SendsCounted(h);
    if Faithful(h) {
      FaithfulNeverReopens(h);
      AtMostOneSend(h);
      forall k | 0 <= k < |h| && Sends(h[k])
        ensures exists i, j :: 0 <= i < j < k && h[i].command.eventType == OperatorApproved
                            && h[j].command.eventType == SubmissionStarted
      {
        var i, j := ApprovalPrecedesSend(h, k);
      }
    }
  }

  /** In every interleaving the stored state and result agree, as long as
    * restarts are faithful. */
  lemma StoredResultConsistent(actions: seq<Action>, r: RunId)
    requires Faithful(History(Run(INITIAL, actions), r))
    ensures var runs := Run(INITIAL, actions).store.runs;
            r in runs ==> Consistent(runs[r].state, runs[r].result)
  {
    hide ValidChain, Run, History, Faithful;
    OneChain(actions, r);
    var h := History(Run(INITIAL, actions), r);
    if h != [] {
      ResultsConsistent(h, |h| - 1);
    }
  }

  // ---- Sequential use is a special case --------------------------------------------

  /** The five port calls of one thread, uninterrupted, are `Execute`. */
  lemma FiveSteps(s: Store, c: Command, f: Faults)
    ensures var (s1, p1) := Advance(s, AtReadRun(c), f.get);
            var (s2, p2) := Advance(s1, p1, f.prior);
            var (s3, p3) := Advance(s2, p2, f.evidence);
            var (s4, p4) := Advance(s3, p3, f.save);
            var (s5, p5) := Advance(s4, p4, f.record);
            p5.Done? && p5.c == c && (s5, p5.outcome) == Execute(s, c, f)
  {
    hide Transition;
  }

  /** One `execute` call with nobody in between is the six actions of one thread:
    * same store, same outcome. */
  lemma UninterruptedCall(w: World, t: nat, c: Command, f: Faults)
    requires t !in w.threads
    ensures var w' := Run(w, [Call(t, c), Step(t, f.get), Step(t, f.prior), Step(t, f.evidence), Step(t, f.save),
                              Step(t, f.record)]);
            && t in w'.threads && w'.threads[t].Done? && w'.threads[t].c == c
            && (w'.store, w'.threads[t].outcome) == Execute(w.store, c, f)
  {
    hide Advance, Execute, Run, SaveWrites, History;
    FiveSteps(w.store, c, f);
    RunSix(w, Call(t, c), Step(t, f.get), Step(t, f.prior), Step(t, f.evidence), Step(t, f.save), Step(t, f.record));
  }

  lemma RunSix(w: World, a: Action, b: Action, c: Action, d: Action, e: Action, g: Action)
    ensures Run(w, [a, b, c, d, e, g]) == Next(Next(Next(Next(Next(Next(w, a), b), c), d), e), g)
  {
    hide Next;
    RunCons(w, a, [b, c, d, e, g]);
    RunCons(Next(w, a), b, [c, d, e, g]);
    RunCons(Next(Next(w, a), b), c, [d, e, g]);
    RunCons(Next(Next(Next(w, a), b), c), d, [e, g]);
    RunCons(Next(Next(Next(Next(w, a), b), c), d), e, [g]);
    RunCons(Next(Next(Next(Next(Next(w, a), b), c), d), e), g, []);
    assert [a, b, c, d, e, g] == [a] + [b, c, d, e, g];
    assert [b, c, d, e, g] == [b] + [c, d, e, g];
    assert [c, d, e, g] == [c] + [d, e, g];
    assert [d, e, g] == [d] + [e, g];
    assert [e, g] == [e] + [g];
    assert [g] == [g] + [];
  }

  lemma RunCons(w: World, a: Action, rest: seq<Action>)
    ensures Run(w, [a] + rest) == Run(Next(w, a), rest)
  {
    hide Next;
    assert ([a] + rest)[1..] == rest;
  }
}
