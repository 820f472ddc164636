/** The canonical evidence recorder
  * (volcanoes/application/qualification/evidence.py).
  * The SHA-256 identity of a record is its identity fields themselves, that is,
  * the hash is taken to be injective.
  */
module Evidence {
  import opened QualificationContracts
  import opened StateMachine
  import opened RunChain
  import opened QualificationService
  import opened Interleaving
  import opened EventLaw
  import opened EventHistory

  datatype EvidenceType = ReconciliationRequiredEvidence | TerminalResultEvidence | TransitionAcceptedEvidence

  datatype EvidenceId = EvidenceId(
    commandId: string,
    destination: QualificationState,
    evidenceType: EvidenceType,
    nextRevision: nat,
    previousRevision: nat,
    runId: RunId,
    source: QualificationState,
    transitionId: nat)

  function TypeOf(e: EvidenceIntent): EvidenceType {
    if e.reconciliationRequired then ReconciliationRequiredEvidence
    else if e.result == Passed || e.result == Failed then TerminalResultEvidence
    else TransitionAcceptedEvidence
  }

  function IdOf(e: EvidenceIntent): EvidenceId {
    EvidenceId(e.commandId, e.destination, TypeOf(e), e.nextRevision, e.previousRevision, e.runId, e.source,
               e.transitionId)
  }

  /** Retained records by identity, and the order in which they arrived. */
  datatype Canonical = Canonical(records: map<EvidenceId, EvidenceIntent>, order: seq<EvidenceId>)

  ghost predicate Wellformed(s: Canonical) {
    && (forall id :: id in s.records ==> IdOf(s.records[id]) == id)
    && (forall id :: id in s.order <==> id in s.records)
    && (forall i, j :: 0 <= i < j < |s.order| ==> s.order[i] != s.order[j])
  }

  predicate Conflicts(s: Canonical, e: EvidenceIntent) {
    IdOf(e) in s.records && s.records[IdOf(e)] != e
  }

  function Keep(s: Canonical, e: EvidenceIntent): Canonical {
    if IdOf(e) in s.records then s
    else Canonical(s.records[IdOf(e) := e], s.order + [IdOf(e)])
  }

  /** The state after recording a batch, and whether no identity conflicted; a
    * conflict stops the batch but keeps what came before it. */
  function RecordAll(s: Canonical, batch: seq<EvidenceIntent>): (Canonical, bool)
    decreases |batch|
  {
    if batch == [] then (s, true)
    else if Conflicts(s, batch[0]) then (s, false)
    else RecordAll(Keep(s, batch[0]), batch[1..])
  }

  class InMemoryCanonicalEvidenceRecorder {
    var records: map<EvidenceId, EvidenceIntent>
    var order: seq<EvidenceId>

    constructor ()
      ensures Contents() == Canonical(map[], [])
    {
      records, order := map[], [];
    }

    ghost function Contents(): Canonical
      reads this
    {
      Canonical(records, order)
    }

    method Record(batch: seq<EvidenceIntent>) returns (ok: bool, references: seq<EvidenceId>)
      modifies this
      ensures (Contents(), ok) == RecordAll(old(Contents()), batch)
      ensures ok ==> |references| == |batch| && forall i :: 0 <= i < |batch| ==> references[i] == IdOf(batch[i])
    {
      references := [];
      for i := 0 to |batch|
        invariant |references| == i
        invariant forall k :: 0 <= k < i ==> references[k] == IdOf(batch[k])
        invariant RecordAll(old(Contents()), batch) == RecordAll(Contents(), batch[i..])
      {
        var id := IdOf(batch[i]);
        assert batch[i..][0] == batch[i] && batch[i..][1..] == batch[i + 1..];
        if id !in records {
          records := records[id := batch[i]];
          order := order + [id];
        } else if records[id] != batch[i] {
          return false, [];
        }
        references := references + [id];
      }
      ok := true;
    }
  }

  /** Recording keeps one record per identity, forgets nothing and, when it
    * succeeds, holds every intent of the batch. */
  lemma {:induction false} RecordKeeps(s: Canonical, batch: seq<EvidenceIntent>)
    requires Wellformed(s)
    ensures var (s', ok) := RecordAll(s, batch);
            && Wellformed(s')
            && s.order <= s'.order
            && (forall id :: id in s.records ==> id in s'.records && s'.records[id] == s.records[id])
            && (ok ==> forall e :: e in batch ==> IdOf(e) in s'.records && s'.records[IdOf(e)] == e)
    decreases |batch|
  {
    hide IdOf;
    if batch != [] && !Conflicts(s, batch[0]) {
      var s1 := Keep(s, batch[0]);
      assert Wellformed(s1);
      RecordKeeps(s1, batch[1..]);
      var (s', ok) := RecordAll(s, batch);
      forall e | e in batch && ok ensures IdOf(e) in s'.records && s'.records[IdOf(e)] == e {
        if e != batch[0] {
          assert e in batch[1..];
        }
      }
    }
  }

  /** A batch fails exactly where the first of its intents conflicts with what was
    * retained by then, and everything before that intent is kept. */
  lemma {:induction false} RecordStopsAtConflict(s: Canonical, batch: seq<EvidenceIntent>) returns (n: nat)
    ensures n <= |batch|
    ensures RecordAll(s, batch[..n]) == (RecordAll(s, batch).0, true)
    ensures if RecordAll(s, batch).1 then n == |batch|
            else n < |batch| && Conflicts(RecordAll(s, batch).0, batch[n])
    decreases |batch|
  {
    hide Conflicts, Keep;
    n := 0;
    assert batch[..0] == [];
    if batch != [] && !Conflicts(s, batch[0]) {
      var m := RecordStopsAtConflict(Keep(s, batch[0]), batch[1..]);
      n := m + 1;
      assert batch[..n][0] == batch[0] && batch[..n][1..] == batch[1..][..m];
      assert m < |batch[1..]| ==> batch[1..][m] == batch[n];
    }
  }

  /** A new identity goes to the end of the order; a known one changes nothing. */
  lemma RecordOne(s: Canonical, e: EvidenceIntent)
    ensures var (s', ok) := RecordAll(s, [e]);
            if IdOf(e) !in s.records then
              ok && s'.records == s.records[IdOf(e) := e] && s'.order == s.order + [IdOf(e)]
            else s' == s && (ok <==> s.records[IdOf(e)] == e)
  {
    hide IdOf;
    assert [e][1..] == [];
  }

  /** Recording the same batch again adds nothing and answers the same. */
  lemma {:induction false} RecordAgainAddsNothing(s: Canonical, batch: seq<EvidenceIntent>)
    requires Wellformed(s)
    ensures var (s', ok) := RecordAll(s, batch); RecordAll(s', batch) == (s', ok)
    decreases |batch|
  {
    hide IdOf;
    if batch != [] && !Conflicts(s, batch[0]) {
      var s1 := Keep(s, batch[0]);
      assert Wellformed(s1);
      RecordAgainAddsNothing(s1, batch[1..]);
      RecordKeeps(s1, batch[1..]);
    }
  }

  /** The evidence a call would offer to the recorder. */
  function Offered(s: Store, c: Command): seq<EvidenceIntent> {
    var loaded := LoadOrCreate(s.runs, c);
    if loaded.Err? then []
    else
      var t := Transition(loaded.value, c.ToEvent(), c.ToContext(s.Prior(c)));
      if t.Err? || t.value.replayed then [] else t.value.evidence
  }

  /** An identical retry after a save that failed or conflicted offers the same
    * evidence, so the canonical recorder gains no second record. */
  lemma RetryAfterFailedSave(s: Store, c: Command, f: Faults, e: Canonical)
    requires Wellformed(e)
    requires f.save == FailBefore || f.save == ReportConflict
    ensures var s' := Execute(s, c, f).0;
            && Offered(s', c) == Offered(s, c)
            && RecordAll(RecordAll(e, Offered(s, c)).0, Offered(s', c)).0 == RecordAll(e, Offered(s, c)).0
  {
    hide Transition, RecordAll;
    RecordAgainAddsNothing(e, Offered(s, c));
  }

  /** In every interleaving, different saved versions have evidence of different
    * identity: no two of them can share a record. */
  lemma SavedEvidenceIsDistinct(actions: seq<Action>, r: RunId, i: nat, q: RunId, j: nat)
    requires i < |History(Run(INITIAL, actions), r)| && j < |History(Run(INITIAL, actions), q)|
    requires r != q || i != j
    ensures var a := History(Run(INITIAL, actions), r)[i].decision.evidence;
            var b := History(Run(INITIAL, actions), q)[j].decision.evidence;
            |a| == 1 && |b| == 1 && IdOf(a[0]) != IdOf(b[0])
  {
    hide Run, History, ValidChain, StepGraph;
    OneChain(actions, r);
    OneChain(actions, q);
    ChainStep(History(Run(INITIAL, actions), r), i);
    ChainStep(History(Run(INITIAL, actions), q), j);
    ChainRevisions(History(Run(INITIAL, actions), r), i);
    ChainRevisions(History(Run(INITIAL, actions), q), j);
  }

  /** Two intents share an identity exactly when they are of one type and tell of the
    * same command taking the same run over the same row between the same states and
    * revisions. */
  lemma SameIdentityExactly(a: EvidenceIntent, b: EvidenceIntent)
    ensures IdOf(a) == IdOf(b) <==>
              && a.commandId == b.commandId && a.runId == b.runId && a.transitionId == b.transitionId
              && a.source == b.source && a.destination == b.destination
              && a.previousRevision == b.previousRevision && a.nextRevision == b.nextRevision
              && TypeOf(a) == TypeOf(b)
  {
  }

  /** In every interleaving the evidence of a saved step tells what the step did, and
    * its type follows from the event: a terminal result is recorded exactly for
    * criteria met or failed and for the operator's rejection, restarts aside. */
  lemma SavedEvidenceSays(actions: seq<Action>, r: RunId, i: nat)
    requires i < |History(Run(INITIAL, actions), r)|
    ensures var s := History(Run(INITIAL, actions), r)[i];
            && |s.decision.evidence| == 1
            && var e := s.decision.evidence[0];
               && e.commandId == s.command.commandId && e.key == s.command.key && e.runId == r
               && e.source == s.before.state && e.destination == s.after.state && e.result == s.after.result
               && e.previousRevision == i && e.nextRevision == i + 1
               && (TypeOf(e) == ReconciliationRequiredEvidence <==> s.after.state == ReconciliationRequired)
               && (!Restarts(s) ==>
                     (TypeOf(e) == TerminalResultEvidence <==>
                        || s.command.eventType == QualificationCriteriaMet
                        || s.command.eventType == QualificationCriteriaFailed
                        || s.command.eventType == OperatorRejected))
  {
    hide Run, History, ValidChain, Legal, Demanded, EffectOf, RetryOf, Proves;
    OneChain(actions, r);
    ChainRevisions(History(Run(INITIAL, actions), r), i);
    SavedByLaw(actions, r, i);
  }
}
