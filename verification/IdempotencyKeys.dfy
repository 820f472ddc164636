/** What an idempotency key protects when calls overlap and ports fail
  * (volcanoes/application/qualification/service.py:265-330): how many versions one
  * key writes, exactly, and when a call is still able to write one.
  */
module IdempotencyKeys {
  import opened Wrappers
  import opened QualificationContracts
  import opened StateMachine
  import opened RunChain
  import opened QualificationService
  import opened Interleaving

  /** How many versions of a history were saved under a key. */
  function Versions(h: seq<SavedStep>, k: IdempotencyKey): nat {
    if h == [] then 0 else Versions(h[..|h| - 1], k) + if h[|h| - 1].command.key == k then 1 else 0
  }

  lemma VersionsAppend(h: seq<SavedStep>, s: SavedStep, k: IdempotencyKey)
    ensures Versions(h + [s], k) == Versions(h, k) + if s.command.key == k then 1 else 0
  {
    assert (h + [s])[..|h|] == h;
  }

  // ---- The exact count -------------------------------------------------------------

  /** The threads that saved a version under the key and have yet to record it. */
  function Unrecorded(threads: map<nat, Thread>, r: RunId, k: IdempotencyKey): set<nat> {
    set t | t in threads && threads[t].AtRecord? && UnderKey(threads[t].c, r, k)
  }

  /** The step saves a version under the key. */
  predicate Saves(w: World, a: Action, r: RunId, k: IdempotencyKey) {
    a.Step? && a.t in w.threads && UnderKey(w.threads[a.t].c, r, k) && SaveWrites(w.store, w.threads[a.t], a.fault)
  }

  /** The step leaves a saved version without a record: the save raises after its
    * write, or the record before it. */
  predicate Loses(w: World, a: Action, r: RunId, k: IdempotencyKey) {
    || (Saves(w, a, r, k) && a.fault == FailAfter)
    || (a.Step? && a.t in Unrecorded(w.threads, r, k) && a.fault == FailBefore)
  }

  /** The step writes a record of the key where there is one already. */
  predicate Overwrites(w: World, a: Action, r: RunId, k: IdempotencyKey) {
    a.Step? && a.t in Unrecorded(w.threads, r, k) && a.fault != FailBefore && (r, k) in w.store.records
  }

  function Losses(w: World, actions: seq<Action>, r: RunId, k: IdempotencyKey): nat
    decreases |actions|
  {
    if actions == [] then 0
    else Losses(Next(w, actions[0]), actions[1..], r, k) + if Loses(w, actions[0], r, k) then 1 else 0
  }

  function Overwritten(w: World, actions: seq<Action>, r: RunId, k: IdempotencyKey): nat
    decreases |actions|
  {
    if actions == [] then 0
    else Overwritten(Next(w, actions[0]), actions[1..], r, k) + if Overwrites(w, actions[0], r, k) then 1 else 0
  }

  /** What a step does to the history, the record and the pending threads of a key. */
  lemma StepOnKey(w: World, a: Action, r: RunId, k: IdempotencyKey)
    ensures var w' := Next(w, a);
            && Versions(History(w', r), k) == Versions(History(w, r), k) + (if Saves(w, a, r, k) then 1 else 0)
            && Held(w'.store, r, k)
               == (if a.Step? && a.t in Unrecorded(w.threads, r, k) && a.fault != FailBefore
                   then 1 else Held(w.store, r, k))
            && Unrecorded(w'.threads, r, k)
               == Unrecorded(w.threads, r, k) - (if a.Step? then {a.t} else {})
                  + (if Saves(w, a, r, k) && a.fault == NoFault then {a.t} else {})
  {
    HistoryOnKey(w, a, r, k);
    RecordOnKey(w, a, r, k);
    PendingOnKey(w, a, r, k);
  }

  lemma HistoryOnKey(w: World, a: Action, r: RunId, k: IdempotencyKey)
    ensures Versions(History(Next(w, a), r), k)
            == Versions(History(w, r), k) + if Saves(w, a, r, k) then 1 else 0
  {
    hide Advance, SaveWrites, Versions;
    if a.Step? && a.t in w.threads && SaveWrites(w.store, w.threads[a.t], a.fault) {
      SavingIsAtSave(w.store, w.threads[a.t], a.fault);
      VersionsAppend(History(w, r), Entry(a.t, w.threads[a.t]), k);
    }
  }

  lemma SavingIsAtSave(s: Store, pc: Thread, fault: Fault)
    requires SaveWrites(s, pc, fault)
    ensures pc.AtSave? && (fault == NoFault || fault == FailAfter)
  {
  }

  lemma RecordOnKey(w: World, a: Action, r: RunId, k: IdempotencyKey)
    ensures Held(Next(w, a).store, r, k)
            == if a.Step? && a.t in Unrecorded(w.threads, r, k) && a.fault != FailBefore
               then 1 else Held(w.store, r, k)
  {
    hide Transition, SaveWrites, History, ApplyTransition;
  }

  lemma PendingOnKey(w: World, a: Action, r: RunId, k: IdempotencyKey)
    ensures Unrecorded(Next(w, a).threads, r, k)
            == Unrecorded(w.threads, r, k) - (if a.Step? then {a.t} else {})
               + (if Saves(w, a, r, k) && a.fault == NoFault then {a.t} else {})
  {
    hide Transition, History, ApplyTransition, LoadOrCreate;
  }

  lemma {:induction false} CountedFrom(w: World, actions: seq<Action>, r: RunId, k: IdempotencyKey)
    ensures var w' := Run(w, actions);
            Versions(History(w', r), k) + Held(w.store, r, k) + |Unrecorded(w.threads, r, k)|
            == Versions(History(w, r), k) + Held(w'.store, r, k) + |Unrecorded(w'.threads, r, k)|
               + Losses(w, actions, r, k) + Overwritten(w, actions, r, k)
    decreases |actions|
  {
    hide Next, History, Unrecorded, Saves, Versions, Held;
    if actions != [] {
      StepOnKey(w, actions[0], r, k);
      SavesIsNotRecording(w, actions[0], r, k);
      HeldRange(w.store, r, k);
      CountedFrom(Next(w, actions[0]), actions[1..], r, k);
    }
  }

  lemma HeldRange(s: Store, r: RunId, k: IdempotencyKey)
    ensures Held(s, r, k) == if (r, k) in s.records then 1 else 0
  {
  }

  lemma SavesIsNotRecording(w: World, a: Action, r: RunId, k: IdempotencyKey)
    ensures Saves(w, a, r, k) ==>
              a.Step? && a.t !in Unrecorded(w.threads, r, k) && (a.fault == NoFault || a.fault == FailAfter)
  {
  }

  /** In every interleaving, under any port failures: the versions written under a
    * key are exactly the record it holds, the records it lost, the times a record
    * of it was written over another, and the threads still about to record. */
  lemma KeyCounted(actions: seq<Action>, r: RunId, k: IdempotencyKey)
    ensures var w := Run(INITIAL, actions);
            Versions(History(w, r), k)
            == Held(w.store, r, k) + Losses(INITIAL, actions, r, k) + Overwritten(INITIAL, actions, r, k)
               + |Unrecorded(w.threads, r, k)|
  {
    hide Run, Losses, Overwritten;
    CountedFrom(INITIAL, actions, r, k);
    assert Unrecorded(INITIAL.threads, r, k) == {};
  }

  // ---- When a call can still write ---------------------------------------------------

  /** The version the thread read is no longer the saved one. */
  predicate Outdated(w: World, c: Command, run: PaperQualificationRun) {
    run.revision < |History(w, c.runId)|
  }

  /** The thread will never save a version: its key was recorded before it read the
    * prior command, its decision is no acceptance, the version it read is no longer
    * the saved one, or it is past its save. */
  ghost predicate Barred(w: World, t: nat)
    requires t in w.threads
  {
    var recorded := (w.threads[t].c.runId, w.threads[t].c.key) in w.store.records;
    match w.threads[t]
    case AtReadRun(_) => recorded
    case AtReadPrior(c, run) =>
      recorded || Outdated(w, c, run) || Transition(run, c.ToEvent(), c.ToContext(None)).Err?
    case AtEvidence(c, run, _, _) => Outdated(w, c, run)
    case AtSave(c, run, _, _) => Outdated(w, c, run)
    case AtRecord(_, _, _) => true
    case Done(_, _) => true
  }

  ghost predicate Good(w: World) { Inv(w) && WellKeyed(w.store) }

  lemma NextIsGood(w: World, a: Action)
    requires Good(w)
    ensures Good(Next(w, a))
    ensures forall r :: History(w, r) <= History(Next(w, a), r)
    ensures forall rk :: rk in w.store.records ==> rk in Next(w, a).store.records
  {
    hide Inv, History, Advance;
    NextKeepsInv(w, a);
    if a.Step? && a.t in w.threads {
      StoreGrows(w.store, w.threads[a.t], a.fault);
    }
  }

  lemma StoreGrows(s: Store, pc: Thread, fault: Fault)
    requires WellKeyed(s)
    ensures WellKeyed(Advance(s, pc, fault).0)
    ensures forall rk :: rk in s.records ==> rk in Advance(s, pc, fault).0.records
  {
    hide Transition, ApplyTransition, LoadOrCreate;
  }

  lemma ReachableIsGood(actions: seq<Action>)
    ensures Good(Run(INITIAL, actions))
  {
    hide Inv;
    assert Inv(INITIAL) by { ReachableInv([]); }
    RunIsGood(INITIAL, actions);
  }

  lemma {:induction false} RunIsGood(w: World, actions: seq<Action>)
    requires Good(w)
    ensures Good(Run(w, actions))
    decreases |actions|
  {
    hide Good, Next;
    if actions != [] {
      NextIsGood(w, actions[0]);
      RunIsGood(Next(w, actions[0]), actions[1..]);
    }
  }

  /** A recorded key turns the call away at its read of the prior command; without a
    * record the call is decided as under a new key. */
  lemma KeyDecides(s: Store, c: Command, run: PaperQualificationRun)
    requires WellKeyed(s)
    ensures var t := Transition(run, c.ToEvent(), c.ToContext(s.Prior(c)));
            if (c.runId, c.key) in s.records then t.Err? || t.value.replayed
            else s.Prior(c) == None && (t.Ok? ==> !t.value.replayed)
  {
    hide Row, RequiredGuards, FindTransition;
  }

  /** The saved version of a run with a history is that history's length. */
  lemma StoredRevision(w: World, r: RunId)
    requires Inv(w)
    ensures r in w.store.runs <==> History(w, r) != []
    ensures r in w.store.runs ==> w.store.runs[r].revision == |History(w, r)|
  {
    hide ValidChain, ThreadInv, Recorded, Covered, History;
    var h := History(w, r);
    assert RunInv(w.store.runs, r, h);
    if h != [] {
      ChainRevisions(h, |h| - 1);
    }
  }

  /** A save goes through, if its port lets it, exactly when the version the thread
    * read is still the saved one. */
  lemma SaveGoesThrough(w: World, t: nat, fault: Fault)
    requires Inv(w) && t in w.threads && w.threads[t].AtSave?
    ensures SaveWrites(w.store, w.threads[t], fault)
            <==> (fault == NoFault || fault == FailAfter) && !Outdated(w, w.threads[t].c, w.threads[t].run)
  {
    hide ValidChain, Transition, Recorded, Covered, History, RunInv;
    var pc := w.threads[t];
    var h := History(w, pc.c.runId);
    assert ThreadInv(h, w.store.intents, t, pc);
    StoredRevision(w, pc.c.runId);
    DecisionFacts(pc.run, pc.c, pc.prior);
  }

  /** A barred thread stays barred, and its next step saves nothing. */
  lemma BarredStays(w: World, a: Action, t: nat)
    requires Good(w) && t in w.threads && Barred(w, t)
    ensures t in Next(w, a).threads && Barred(Next(w, a), t)
    ensures a.Step? && a.t == t ==> !SaveWrites(w.store, w.threads[t], a.fault)
  {
    hide Inv, Transition, ApplyTransition, LoadOrCreate;
    NextIsGood(w, a);
    var pc := w.threads[t];
    assert History(w, pc.c.runId) <= History(Next(w, a), pc.c.runId);
    if a.Step? && a.t == t {
      BarredMoves(w, t, a.fault);
    }
  }

  lemma BarredMoves(w: World, t: nat, fault: Fault)
    requires Good(w) && t in w.threads && Barred(w, t)
    ensures var w' := Next(w, Step(t, fault)); t in w'.threads && Barred(w', t)
    ensures !SaveWrites(w.store, w.threads[t], fault)
  {
    hide Inv, Transition, ApplyTransition, LoadOrCreate, SaveWrites;
    var pc := w.threads[t];
    NextIsGood(w, Step(t, fault));
    assert History(w, pc.c.runId) <= History(Next(w, Step(t, fault)), pc.c.runId);
    if pc.AtReadPrior? {
      KeyDecides(w.store, pc.c, pc.run);
    } else if pc.AtSave? {
      SaveGoesThrough(w, t, fault);
    }
    if SaveWrites(w.store, pc, fault) {
      SavingIsAtSave(w.store, pc, fault);
    }
  }

  /** Thread t saves a version somewhere along the actions. */
  predicate EverSaves(w: World, actions: seq<Action>, t: nat)
    decreases |actions|
  {
    actions != []
    && ((actions[0].Step? && actions[0].t == t && t in w.threads
         && SaveWrites(w.store, w.threads[t], actions[0].fault))
        || EverSaves(Next(w, actions[0]), actions[1..], t))
  }

  lemma {:induction false} BarredForever(w: World, actions: seq<Action>, t: nat)
    requires Good(w) && t in w.threads && Barred(w, t)
    ensures !EverSaves(w, actions, t)
    decreases |actions|
  {
    hide Good, Barred, SaveWrites, Next;
    if actions != [] {
      BarredStays(w, actions[0], t);
      NextIsGood(w, actions[0]);
      BarredForever(Next(w, actions[0]), actions[1..], t);
    }
  }

  /** A thread that is not barred saves a version if it now runs on alone. */
  lemma UnbarredCanSave(w: World, t: nat) returns (actions: seq<Action>)
    requires Good(w) && t in w.threads && !w.threads[t].AtReadRun? && !Barred(w, t)
    ensures EverSaves(w, actions, t)
    decreases if w.threads[t].AtReadPrior? then 2 else if w.threads[t].AtEvidence? then 1 else 0
  {
    hide Inv, Transition, ApplyTransition, LoadOrCreate, SaveWrites;
    var pc := w.threads[t];
    var a := Step(t, NoFault);
    if pc.AtSave? {
      SaveGoesThrough(w, t, NoFault);
      actions := [a];
    } else {
      NextIsGood(w, a);
      if pc.AtReadPrior? {
        KeyDecides(w.store, pc.c, pc.run);
      }
      SavingIsAtSaveOnly(w.store, pc, NoFault);
      assert History(Next(w, a), pc.c.runId) == History(w, pc.c.runId);
      var rest := UnbarredCanSave(Next(w, a), t);
      actions := [a] + rest;
      assert actions[1..] == rest;
    }
  }

  lemma SavingIsAtSaveOnly(s: Store, pc: Thread, fault: Fault)
    requires !pc.AtSave?
    ensures !SaveWrites(s, pc, fault)
  {
  }

  /** At any moment of any interleaving, a call that has read the run can still save
    * a version if and only if the version it read is still the saved one and, as
    * long as it has not read the prior command, no record of its key exists and the
    * decision under a new key is an acceptance. So a second version under a key
    * needs a call that read before the record of the first was there. */
  lemma CanSaveExactly(before: seq<Action>, t: nat)
    requires var w := Run(INITIAL, before); t in w.threads && !w.threads[t].AtReadRun?
    ensures var w := Run(INITIAL, before);
            !Barred(w, t) <==> exists more :: EverSaves(w, more, t)
  {
    hide Good, Barred, EverSaves, Run;
    ReachableIsGood(before);
    var w := Run(INITIAL, before);
    if Barred(w, t) {
      forall more ensures !EverSaves(w, more, t) {
        BarredForever(w, more, t);
      }
    } else {
      var more := UnbarredCanSave(w, t);
    }
  }

  /** No call that starts, or reads the prior command, after a record of its key is
    * there ever saves a version. */
  lemma RecordedKeySavesNothing(before: seq<Action>, t: nat, more: seq<Action>)
    requires var w := Run(INITIAL, before);
             && t in w.threads && (w.threads[t].AtReadRun? || w.threads[t].AtReadPrior?)
             && (w.threads[t].c.runId, w.threads[t].c.key) in w.store.records
    ensures !EverSaves(Run(INITIAL, before), more, t)
  {
    hide Good, EverSaves, Run;
    ReachableIsGood(before);
    BarredForever(Run(INITIAL, before), more, t);
  }

  // ---- Calls that do not overlap -------------------------------------------------------

  /** A call under the key starts only when every earlier one under it has returned,
    * and no record of the key is lost. */
  ghost predicate Apart(w: World, actions: seq<Action>, r: RunId, k: IdempotencyKey)
    decreases |actions|
  {
    actions != [] ==>
      && (actions[0].Call? && UnderKey(actions[0].c, r, k) ==>
            forall t :: t in w.threads && UnderKey(w.threads[t].c, r, k) ==> w.threads[t].Done?)
      && !Loses(w, actions[0], r, k)
      && Apart(Next(w, actions[0]), actions[1..], r, k)
  }

  /** A call under the key that has not returned. */
  predicate Underway(threads: map<nat, Thread>, t: nat, r: RunId, k: IdempotencyKey) {
    t in threads && UnderKey(threads[t].c, r, k) && !threads[t].Done?
  }

  /** What the place of the one call under way says about the key. */
  predicate Fits(pc: Thread, versions: nat, held: nat) {
    && (pc.AtEvidence? || pc.AtSave? ==> versions == held == 0)
    && (pc.AtRecord? ==> versions == 1 && held == 0)
    && (!pc.AtRecord? ==> versions == held)
  }

  /** At most one call under the key is under way, and the versions written under the
    * key are those recorded, but for one between its save and its record. */
  ghost predicate Quiet(w: World, r: RunId, k: IdempotencyKey) {
    var versions, held := Versions(History(w, r), k), Held(w.store, r, k);
    && (forall t, u :: Underway(w.threads, t, r, k) && Underway(w.threads, u, r, k) ==> t == u)
    && (forall t :: Underway(w.threads, t, r, k) ==> Fits(w.threads[t], versions, held))
    && ((forall t :: !Underway(w.threads, t, r, k)) ==> versions == held)
  }

  lemma {:induction false} ApartStaysQuiet(w: World, actions: seq<Action>, r: RunId, k: IdempotencyKey)
    requires Good(w) && Quiet(w, r, k) && Apart(w, actions, r, k)
    ensures Quiet(Run(w, actions), r, k)
    decreases |actions|
  {
    hide Good, Quiet, Next, Loses;
    if actions != [] {
      NextIsGood(w, actions[0]);
      QuietStep(w, actions[0], r, k);
      ApartStaysQuiet(Next(w, actions[0]), actions[1..], r, k);
    }
  }

  lemma QuietStep(w: World, a: Action, r: RunId, k: IdempotencyKey)
    requires Good(w) && Quiet(w, r, k) && !Loses(w, a, r, k)
    requires a.Call? && UnderKey(a.c, r, k) ==>
               forall t :: t in w.threads && UnderKey(w.threads[t].c, r, k) ==> w.threads[t].Done?
    ensures Quiet(Next(w, a), r, k)
  {
    hide Good, Quiet, Loses;
    if a.Call? {
      QuietCall(w, a.t, a.c, r, k);
    } else if Underway(w.threads, a.t, r, k) {
      QuietMove(w, a.t, a.fault, r, k);
    } else {
      QuietElsewhere(w, a.t, a.fault, r, k);
    }
  }

  lemma QuietCall(w: World, t: nat, c: Command, r: RunId, k: IdempotencyKey)
    requires Quiet(w, r, k)
    requires UnderKey(c, r, k) ==>
               forall u :: u in w.threads && UnderKey(w.threads[u].c, r, k) ==> w.threads[u].Done?
    ensures Quiet(Next(w, Call(t, c)), r, k)
  {
    hide Versions, History, UnderKey, Advance, SaveWrites;
    var w' := Next(w, Call(t, c));
    assert Held(w'.store, r, k) == Held(w.store, r, k) && w'.history == w.history;
    SameHistory(w, w', r);
    forall u | u != t ensures Underway(w'.threads, u, r, k) == Underway(w.threads, u, r, k) {
    }
    if t !in w.threads && UnderKey(c, r, k) {
      forall u ensures !Underway(w.threads, u, r, k) {
      }
      assert Underway(w'.threads, t, r, k);
    } else {
      assert Underway(w'.threads, t, r, k) == Underway(w.threads, t, r, k);
      assert forall u :: Underway(w'.threads, u, r, k) == Underway(w.threads, u, r, k);
    }
  }

  lemma SameHistory(w: World, w': World, r: RunId)
    requires w'.history == w.history
    ensures History(w', r) == History(w, r)
  {
  }

  /** A step of a thread that has returned, or is not under the key. */
  lemma QuietElsewhere(w: World, t: nat, fault: Fault, r: RunId, k: IdempotencyKey)
    requires Quiet(w, r, k) && !Underway(w.threads, t, r, k)
    ensures Quiet(Next(w, Step(t, fault)), r, k)
  {
    hide Versions, History, Held;
    var w' := Next(w, Step(t, fault));
    ElsewhereOnKey(w, t, fault, r, k);
    assert forall u :: Underway(w'.threads, u, r, k) == Underway(w.threads, u, r, k)
                       && (Underway(w.threads, u, r, k) ==> w'.threads[u] == w.threads[u]);
  }

  lemma ElsewhereOnKey(w: World, t: nat, fault: Fault, r: RunId, k: IdempotencyKey)
    requires !Underway(w.threads, t, r, k)
    ensures var w' := Next(w, Step(t, fault));
            && Versions(History(w', r), k) == Versions(History(w, r), k)
            && Held(w'.store, r, k) == Held(w.store, r, k)
            && !Underway(w'.threads, t, r, k)
            && (forall u :: u != t ==> (u in w'.threads <==> u in w.threads))
            && (forall u :: u != t && u in w.threads ==> w'.threads[u] == w.threads[u])
  {
    hide Versions, History, Held, Transition, LoadOrCreate, ApplyTransition;
    StepOnKey(w, Step(t, fault), r, k);
    HeldRange(w.store, r, k);
  }

  /** A step of the one call under way. */
  lemma QuietMove(w: World, t: nat, fault: Fault, r: RunId, k: IdempotencyKey)
    requires Good(w) && Quiet(w, r, k) && Underway(w.threads, t, r, k) && !Loses(w, Step(t, fault), r, k)
    ensures Quiet(Next(w, Step(t, fault)), r, k)
  {
    hide Good, Versions, History, Held, Loses, Fits, Next, UnderKey;
    var w' := Next(w, Step(t, fault));
    MoveOnKey(w, t, fault, r, k);
    OthersAlone(w, t, fault);
    forall u | u != t ensures !Underway(w'.threads, u, r, k) {
      assert Underway(w'.threads, u, r, k) == Underway(w.threads, u, r, k);
    }
    FittingReturned(w'.threads[t], Versions(History(w', r), k), Held(w'.store, r, k));
    assert Underway(w'.threads, t, r, k) || w'.threads[t].Done?;
  }

  lemma OthersAlone(w: World, t: nat, fault: Fault)
    requires t in w.threads
    ensures var w' := Next(w, Step(t, fault));
            && t in w'.threads && w'.threads[t].c == w.threads[t].c
            && (forall u :: u != t ==> (u in w'.threads <==> u in w.threads))
            && (forall u :: u != t && u in w.threads ==> w'.threads[u] == w.threads[u])
  {
    hide Transition, LoadOrCreate, ApplyTransition, SaveWrites, History;
  }

  lemma FittingReturned(pc: Thread, versions: nat, held: nat)
    ensures Fits(pc, versions, held) && pc.Done? ==> versions == held
  {
  }

  lemma MoveOnKey(w: World, t: nat, fault: Fault, r: RunId, k: IdempotencyKey)
    requires Good(w) && Underway(w.threads, t, r, k) && !Loses(w, Step(t, fault), r, k)
    requires Fits(w.threads[t], Versions(History(w, r), k), Held(w.store, r, k))
    ensures var w' := Next(w, Step(t, fault));
            t in w'.threads && Fits(w'.threads[t], Versions(History(w', r), k), Held(w'.store, r, k))
  {
    hide Inv, Versions, History, Held, Transition, LoadOrCreate, ApplyTransition;
    StepOnKey(w, Step(t, fault), r, k);
    HeldRange(w.store, r, k);
    var pc := w.threads[t];
    if pc.AtReadPrior? {
      KeyDecides(w.store, pc.c, pc.run);
    }
  }

  /** In every interleaving in which calls under a key do not overlap and no record
    * of it is lost, the key writes at most one version, recorded once. */
  lemma AtMostOneVersion(actions: seq<Action>, r: RunId, k: IdempotencyKey)
    requires Apart(INITIAL, actions, r, k)
    ensures Versions(History(Run(INITIAL, actions), r), k) <= 1
  {
    hide Apart, Good, Run, Versions, Held;
    ReachableIsGood([]);
    assert Run(INITIAL, []) == INITIAL by { NoActions(); }
    assert Quiet(INITIAL, r, k) by { InitialQuiet(r, k); }
    ApartStaysQuiet(INITIAL, actions, r, k);
    var w := Run(INITIAL, actions);
    HeldRange(w.store, r, k);
    if t :| Underway(w.threads, t, r, k) {
      assert Fits(w.threads[t], Versions(History(w, r), k), Held(w.store, r, k));
    }
  }

  lemma NoActions()
    ensures Run(INITIAL, []) == INITIAL
  {
  }

  lemma InitialQuiet(r: RunId, k: IdempotencyKey)
    ensures Quiet(INITIAL, r, k)
  {
  }

  // ---- Calls that do -------------------------------------------------------------------

  /** An abort is accepted in every open run, under any key without a record. */
  lemma AbortIsAccepted(s: Store, run: PaperQualificationRun, k: IdempotencyKey) returns (c: Command)
    requires WellKeyed(s) && run.runId in s.runs && s.runs[run.runId] == run && !IsTerminal(run.state)
    requires (run.runId, k) !in s.records
    ensures UnderKey(c, run.runId, k) && c.eventType == AbortRequested
    ensures var (s', outcome) := Execute(s, c, NO_FAULTS);
            && outcome.CommandAccepted? && outcome.decision.previousRevision == run.revision
            && (run.runId, k) in s'.records && s'.records[(run.runId, k)] == RecordOf(c, outcome.decision)
            && run.runId in s'.runs && s'.runs[run.runId].revision == run.revision + 1
  {
    hide Row, RequiredGuards, Transition, SourceMatches, ApplyTransition, Candidate, GuardsMet, Commit, Execute,
         FollowsRow, ValidStep, WellKeyed, LoadOrCreate;
    c := Command(run.runId, "", "", AbortRequested, run.revision, "abort", k, Operator,
                 {ActorAuthorizedToAbort, NoUnsafeBrokerEffectInProgress}, [], None, "PAPER", None);
    AbortRow(run.state);
    var step := StepFor(run, c, ABORT_ROW);
    StepNoPrior(step);
    StepIsNew(step);
    DecisionFacts(run, c, None);
    ExecuteCommits(s, c, run, step.decision);
    CommitOnce(s, c, run, step.decision);
  }

  lemma StepIsNew(s: SavedStep)
    requires ValidStep(s)
    ensures !s.decision.replayed
  {
    hide Transition;
  }

  lemma ExecuteCommits(s: Store, c: Command, run: PaperQualificationRun, d: TransitionDecision)
    requires c.runId in s.runs && s.runs[c.runId] == run && c.eventType != StartQualification
    requires (c.runId, c.key) !in s.records
    requires Transition(run, c.ToEvent(), c.ToContext(None)) == Ok(d) && !d.replayed
    ensures Execute(s, c, NO_FAULTS) == Commit(s, c, run, d, NO_FAULTS)
  {
    hide Transition, Commit;
  }

  lemma AbortRow(state: QualificationState)
    requires !IsTerminal(state)
    ensures Candidate(ABORT_ROW, state, AbortRequested)
    ensures GuardsMet(ABORT_ROW, {ActorAuthorizedToAbort, NoUnsafeBrokerEffectInProgress})
  {
    hide RowSound;
  }

  lemma CommitOnce(s: Store, c: Command, run: PaperQualificationRun, d: TransitionDecision)
    requires run.runId == c.runId && c.runId in s.runs && s.runs[c.runId] == run
    requires d.previousRevision == run.revision && d.nextRevision == run.revision + 1
    ensures var (s', outcome) := Commit(s, c, run, d, NO_FAULTS);
            && outcome.CommandAccepted? && outcome.decision == d
            && (c.runId, c.key) in s'.records && s'.records[(c.runId, c.key)] == RecordOf(c, d)
            && c.runId in s'.runs && s'.runs[c.runId].revision == run.revision + 1
  {
  }

  /** A thread that takes no step stays where it is. */
  lemma {:induction false} OthersLeaveAlone(w: World, actions: seq<Action>, t: nat)
    requires t in w.threads && forall i :: 0 <= i < |actions| ==> !(actions[i].Step? && actions[i].t == t)
    ensures t in Run(w, actions).threads && Run(w, actions).threads[t] == w.threads[t]
    decreases |actions|
  {
    hide Advance, SaveWrites, History;
    if actions != [] {
      OthersLeaveAlone(Next(w, actions[0]), actions[1..], t);
    }
  }

  /** The actions of one call with nobody in between. */
  function CallActions(u: nat, c: Command): seq<Action> {
    [Call(u, c), Step(u, NoFault), Step(u, NoFault), Step(u, NoFault), Step(u, NoFault), Step(u, NoFault)]
  }

  predicate FaultFree(actions: seq<Action>) {
    forall i :: 0 <= i < |actions| && actions[i].Step? ==> actions[i].fault == NoFault
  }

  /** Without any failure: while a call has saved but not recorded, a second call
    * under the same key saves another version of the open run, is accepted and is
    * recorded; the first then records over it and is accepted too. */
  lemma OverlapWritesAgain(before: seq<Action>, t: nat, u: nat) returns (c: Command, more: seq<Action>)
    requires var w := Run(INITIAL, before);
             && t in w.threads && u !in w.threads && w.threads[t].AtRecord?
             && (w.threads[t].c.runId, w.threads[t].c.key) !in w.store.records
             && w.threads[t].c.runId in w.store.runs && !IsTerminal(w.store.runs[w.threads[t].c.runId].state)
    ensures var w := Run(INITIAL, before);
            var r, k := w.threads[t].c.runId, w.threads[t].c.key;
            var w' := Run(w, more);
            && UnderKey(c, r, k) && FaultFree(more)
            && Versions(History(w', r), k) == Versions(History(w, r), k) + 1
            && t in w'.threads && w'.threads[t].Done? && w'.threads[t].outcome.CommandAccepted?
            && u in w'.threads && w'.threads[u].Done? && w'.threads[u].outcome.CommandAccepted?
            && (r, k) in w'.store.records && w'.store.records[(r, k)] == RecordOf(w.threads[t].c, w.threads[t].d)
  {
    hide Run, Good, Inv, WellKeyed, Versions, History, Execute, Next, RecordOf;
    ReachableIsGood(before);
    GoodSays(Run(INITIAL, before));
    var w := Run(INITIAL, before);
    var pc := w.threads[t];
    var r, k := pc.c.runId, pc.c.key;
    var run := w.store.runs[r];
    StoredKey(w.store, r);
    c := AbortIsAccepted(w.store, run, k);
    var call := CallActions(u, c);
    UninterruptedCall(w, u, c, NO_FAULTS);
    OthersLeaveAlone(w, call, t);
    var w1 := Run(w, call);
    OneMoreVersion(w, call, u, c, k);
    more := call + [Step(t, NoFault)];
    RunThenStep(w, call, Step(t, NoFault));
    RecordsLast(w1, t, r, k);
  }

  lemma GoodSays(w: World)
    requires Good(w)
    ensures Inv(w) && WellKeyed(w.store)
  {
  }

  lemma StoredKey(s: Store, r: RunId)
    requires WellKeyed(s) && r in s.runs
    ensures s.runs[r].runId == r
  {
  }

  lemma {:induction false} RunThenStep(w: World, actions: seq<Action>, a: Action)
    ensures Run(w, actions + [a]) == Next(Run(w, actions), a)
    decreases |actions|
  {
    hide Next;
    if actions == [] {
      assert [a][1..] == [] && actions + [a] == [a];
    } else {
      assert (actions + [a])[1..] == actions[1..] + [a];
      RunThenStep(Next(w, actions[0]), actions[1..], a);
    }
  }

  /** The last step of a call that has saved. */
  lemma RecordsLast(w: World, t: nat, r: RunId, k: IdempotencyKey)
    requires t in w.threads && w.threads[t].AtRecord? && UnderKey(w.threads[t].c, r, k)
    ensures var w' := Next(w, Step(t, NoFault));
            && History(w', r) == History(w, r)
            && w'.threads == w.threads[t := w'.threads[t]] && t in w'.threads
            && w'.threads[t].Done? && w'.threads[t].outcome.CommandAccepted?
            && (r, k) in w'.store.records && w'.store.records[(r, k)] == RecordOf(w.threads[t].c, w.threads[t].d)
  {
  }

  /** An accepted call that raised the stored revision by one added one version. */
  lemma OneMoreVersion(w: World, actions: seq<Action>, u: nat, c: Command, k: IdempotencyKey)
    requires Inv(w) && c.key == k && c.runId in w.store.runs
    requires var w' := Run(w, actions);
             && u in w'.threads && w'.threads[u].Done? && w'.threads[u].c == c
             && w'.threads[u].outcome.CommandAccepted?
             && w'.threads[u].outcome.decision.previousRevision == w.store.runs[c.runId].revision
             && c.runId in w'.store.runs
             && w'.store.runs[c.runId].revision == w.store.runs[c.runId].revision + 1
    ensures Versions(History(Run(w, actions), c.runId), k) == Versions(History(w, c.runId), k) + 1
  {
    hide Run, Versions, RunInv, Snapshot, Decided, Recorded, Covered, History;
    RunKeepsInv(w, actions);
    var w' := Run(w, actions);
    var h, h' := History(w, c.runId), History(w', c.runId);
    StoredRevision(w, c.runId);
    StoredRevision(w', c.runId);
    assert ThreadInv(h', w'.store.intents, u, w'.threads[u]);
    assert h <= h' && |h'| == |h| + 1;
    assert h' == h + [h'[|h|]];
    VersionsAppend(h, h'[|h|], k);
  }

  /** The first four port calls of a call that would be accepted. */
  lemma FourSteps(s: Store, c: Command)
    requires Execute(s, c, NO_FAULTS).1.CommandAccepted?
    ensures var (s1, p1) := Advance(s, AtReadRun(c), NoFault);
            var (s2, p2) := Advance(s1, p1, NoFault);
            var (s3, p3) := Advance(s2, p2, NoFault);
            var (s4, p4) := Advance(s3, p3, NoFault);
            && p4.AtRecord? && p4.c == c && p4.d == Execute(s, c, NO_FAULTS).1.decision
            && s4.records == s.records && s4.runs == Execute(s, c, NO_FAULTS).0.runs
  {
    hide Transition, ApplyTransition;
  }

  /** A call that would be accepted, stopped before it records. */
  lemma StoppedBeforeRecord(w: World, u: nat, c: Command)
    requires u !in w.threads && Execute(w.store, c, NO_FAULTS).1.CommandAccepted?
    ensures var w' := Run(w, CallActions(u, c)[..5]);
            && u in w'.threads && w'.threads[u].AtRecord? && w'.threads[u].c == c
            && w'.threads.Keys == w.threads.Keys + {u}
            && w'.store.records == w.store.records && w'.store.runs == Execute(w.store, c, NO_FAULTS).0.runs
  {
    hide Advance, Execute, Run, SaveWrites, History;
    FourSteps(w.store, c);
    var a := Step(u, NoFault);
    assert CallActions(u, c)[..5] == [Call(u, c), a, a, a, a];
    RunFive(w, Call(u, c), a);
  }

  lemma RunFive(w: World, a: Action, b: Action)
    ensures Run(w, [a, b, b, b, b]) == Next(Next(Next(Next(Next(w, a), b), b), b), b)
  {
    hide Next;
    RunThenStep(w, [a, b, b, b], b);
    RunThenStep(w, [a, b, b], b);
    RunThenStep(w, [a, b], b);
    RunThenStep(w, [a], b);
    RunThenStep(w, [], a);
    assert [a, b, b, b, b] == [a, b, b, b] + [b];
    assert [a, b, b, b] == [a, b, b] + [b] && [a, b, b] == [a, b] + [b] && [a, b] == [a] + [b] && [a] == [] + [a];
  }

  lemma StartIsAccepted() returns (c: Command)
    ensures var (s, outcome) := Execute(EMPTY_STORE, c, NO_FAULTS);
            && outcome.CommandAccepted?
            && c.runId in s.runs && s.runs[c.runId].state == PrecheckPending
  {
    hide Row, RequiredGuards, Transition, SourceMatches, ApplyTransition, Candidate, GuardsMet, FollowsRow, ValidStep;
    c := Command("run", "scenario", "correlation", StartQualification, 0, "start", "key", Operator,
                 {ScenarioAuthorized, PaperEnvironment}, [], None, "PAPER", None);
    StartRows();
    var step := StepFor(FreshRun(c), c, 1);
    StepNoPrior(step);
    StepIsNew(step);
    StepDestination(step);
    RunIdStays(step);
  }

  lemma RunIdStays(s: SavedStep)
    requires FollowsRow(s)
    ensures s.after.runId == s.before.runId
  {
    hide Row, RequiredGuards, SourceMatches;
  }

  /** A run with no failure at all in which two accepted calls write two versions
    * under one key. */
  lemma OverlapWritesTwice() returns (actions: seq<Action>, r: RunId, k: IdempotencyKey)
    ensures var w := Run(INITIAL, actions);
            && FaultFree(actions) && Versions(History(w, r), k) >= 2
            && 0 in w.threads && w.threads[0].Done? && w.threads[0].outcome.CommandAccepted?
            && 1 in w.threads && w.threads[1].Done? && w.threads[1].outcome.CommandAccepted?
  {
    hide Run, Execute, Versions, History, Good, Unrecorded, Losses, Overwritten;
    var c := StartIsAccepted();
    r, k := c.runId, c.key;
    StoppedBeforeRecord(INITIAL, 0, c);
    var before := CallActions(0, c)[..5];
    var abort, more := OverlapWritesAgain(before, 0, 1);
    PendingIsCounted(before, 0, r, k);
    actions := before + more;
    RunAppend(INITIAL, before, more);
  }

  lemma PendingIsCounted(actions: seq<Action>, t: nat, r: RunId, k: IdempotencyKey)
    requires var w := Run(INITIAL, actions); t in w.threads && w.threads[t].AtRecord? && UnderKey(w.threads[t].c, r, k)
    ensures Versions(History(Run(INITIAL, actions), r), k) >= 1
  {
    hide Run, Versions, History, Losses, Overwritten;
    KeyCounted(actions, r, k);
    assert t in Unrecorded(Run(INITIAL, actions).threads, r, k);
  }

  lemma {:induction false} RunAppend(w: World, first: seq<Action>, second: seq<Action>)
    ensures Run(w, first + second) == Run(Run(w, first), second)
    decreases |first|
  {
    hide Next;
    if first == [] {
      assert first + second == second;
    } else {
      assert (first + second)[1..] == first[1..] + second;
      RunAppend(Next(w, first[0]), first[1..], second);
    }
  }

  /** In an open run a new call can write a version under a key if and only if no
    * record of the key exists when it starts. */
  lemma NewCallExactly(before: seq<Action>, r: RunId, k: IdempotencyKey, u: nat)
    requires var w := Run(INITIAL, before); u !in w.threads && r in w.store.runs && !IsTerminal(w.store.runs[r].state)
    ensures var w := Run(INITIAL, before);
            (r, k) !in w.store.records <==>
              exists c, more :: UnderKey(c, r, k) && EverSaves(Next(w, Call(u, c)), more, u)
  {
    hide Good, EverSaves, Run, WellKeyed, Inv, Execute, Barred;
    ReachableIsGood(before);
    var w := Run(INITIAL, before);
    GoodSays(w);
    if (r, k) in w.store.records {
      forall c, more | UnderKey(c, r, k) ensures !EverSaves(Next(w, Call(u, c)), more, u) {
        NextIsGood(w, Call(u, c));
        NewIsBarred(w, u, c);
        BarredForever(Next(w, Call(u, c)), more, u);
      }
    } else {
      StoredKey(w.store, r);
      var c := AbortIsAccepted(w.store, w.store.runs[r], k);
      var more := NewCallSaves(w, u, c, r);
    }
  }

  lemma NewIsBarred(w: World, u: nat, c: Command)
    requires u !in w.threads && (c.runId, c.key) in w.store.records
    ensures u in Next(w, Call(u, c)).threads && Barred(Next(w, Call(u, c)), u)
  {
  }

  lemma NewCallSaves(w: World, u: nat, c: Command, r: RunId) returns (more: seq<Action>)
    requires Good(w) && u !in w.threads && c.runId == r && r in w.store.runs && c.eventType == AbortRequested
    requires (c.runId, c.key) !in w.store.records && Execute(w.store, c, NO_FAULTS).1.CommandAccepted?
    ensures EverSaves(Next(w, Call(u, c)), more, u)
  {
    hide Inv, WellKeyed, Transition, ApplyTransition, SaveWrites, History;
    var w1 := Next(w, Call(u, c));
    NextIsGood(w, Call(u, c));
    var w2 := Next(w1, Step(u, NoFault));
    NextIsGood(w1, Step(u, NoFault));
    SavingIsAtSaveOnly(w1.store, w1.threads[u], NoFault);
    StoredRevision(w, r);
    SameHistory(w, w1, r);
    SameHistory(w1, w2, r);
    var rest := UnbarredCanSave(w2, u);
    more := [Step(u, NoFault)] + rest;
    assert more[1..] == rest;
  }
}
