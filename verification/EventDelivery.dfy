/** Bounded, counted event publication with retries (volcanoes/application/operations/
  * event_delivery.py), alone and under any interleaving of calls.
  */
module EventDelivery {
  datatype Capability = Null | LocalRecording | ExternalDelivery

  datatype Status = LocalAccepted | ExternalDelivered | Failed | OutcomeUnknown

  datatype ReasonCode =
    | RETRY_EXHAUSTED
    | EXTERNAL_DELIVERY_OUTCOME_UNKNOWN
    | DELIVERY_FAILED
    | EXTERNAL_DELIVERY_ACKNOWLEDGED
    | NULL_NO_EXTERNAL_DELIVERY
    | LOCAL_DELIVERY_ACCEPTED

  /** What one attempt of the delegate does. Only the first failure proves that
    * nothing was sent. */
  datatype Answer = Delivered | NotSent | Broken

  datatype Diagnostic = Diagnostic(
    eventId: string,
    correlationId: string,
    capability: Capability,
    status: Status,
    attempts: nat,
    retries: nat,
    reasonCode: ReasonCode)

  datatype Event = Event(id: string, correlationId: string)

  datatype Settings = Settings(capability: Capability, maxAttempts: nat, historyLimit: nat) {
    /** What the constructor accepts. */
    predicate Valid() { 1 <= maxAttempts <= 5 && 1 <= historyLimit <= 1000 }
  }

  function StatusFor(capability: Capability, answer: Answer): Status {
    match answer
    case Delivered => if capability == ExternalDelivery then ExternalDelivered else LocalAccepted
    case NotSent => Failed
    case Broken => if capability == ExternalDelivery then OutcomeUnknown else Failed
  }

  function ReasonFor(capability: Capability, answer: Answer): ReasonCode {
    match answer
    case Delivered =>
      if capability == ExternalDelivery then EXTERNAL_DELIVERY_ACKNOWLEDGED
      else if capability == Null then NULL_NO_EXTERNAL_DELIVERY else LOCAL_DELIVERY_ACCEPTED
    case NotSent => RETRY_EXHAUSTED
    case Broken => if capability == ExternalDelivery then EXTERNAL_DELIVERY_OUTCOME_UNKNOWN else DELIVERY_FAILED
  }

  /** The outcome of a call whose last answer, after some retries, is given. */
  function Terminal(s: Settings, event: Event, answer: Answer, retries: nat): Diagnostic {
    Diagnostic(event.id, event.correlationId, s.capability, StatusFor(s.capability, answer), retries + 1, retries,
               ReasonFor(s.capability, answer))
  }

  // ---- Counters and history ------------------------------------------------------

  datatype Books = Books(
    attempts: nat,
    retries: nat,
    localAccepted: nat,
    externalDelivered: nat,
    failures: nat,
    outcomeUnknown: nat,
    diagnostics: seq<Diagnostic>)

  function Terminals(b: Books): nat {
    b.localAccepted + b.externalDelivered + b.failures + b.outcomeUnknown
  }

  function CountStatus(ds: seq<Diagnostic>, status: Status): nat {
    if ds == [] then 0
    else CountStatus(ds[..|ds| - 1], status) + if ds[|ds| - 1].status == status then 1 else 0
  }

  function LastOf(ds: seq<Diagnostic>, limit: nat): (last: seq<Diagnostic>)
    ensures |last| == if |ds| <= limit then |ds| else limit
  {
    if |ds| <= limit then ds else ds[|ds| - limit..]
  }

  /** The books agree with the whole history of outcomes. */
  ghost predicate Agree(b: Books, limit: nat, history: seq<Diagnostic>) {
    && b.localAccepted == CountStatus(history, LocalAccepted)
    && b.externalDelivered == CountStatus(history, ExternalDelivered)
    && b.failures == CountStatus(history, Failed)
    && b.outcomeUnknown == CountStatus(history, OutcomeUnknown)
    && b.diagnostics == LastOf(history, limit)
  }

  lemma CountAppend(ds: seq<Diagnostic>, d: Diagnostic, status: Status)
    ensures CountStatus(ds + [d], status) == CountStatus(ds, status) + if d.status == status then 1 else 0
  {
    assert (ds + [d])[..|ds|] == ds;
  }

  /** Every outcome falls in one of the four counters. */
  lemma {:induction false} CountersAddUp(history: seq<Diagnostic>)
    ensures CountStatus(history, LocalAccepted) + CountStatus(history, ExternalDelivered)
            + CountStatus(history, Failed) + CountStatus(history, OutcomeUnknown) == |history|
  {
    if history != [] {
      CountersAddUp(history[..|history| - 1]);
    }
  }

  /** `_record_terminal` on the values of the fields. */
  function Recorded(b: Books, limit: nat, d: Diagnostic): Books {
    var appended := b.diagnostics + [d];
    var kept := if |appended| > limit then appended[|appended| - limit..] else appended;
    b.(localAccepted := b.localAccepted + if d.status == LocalAccepted then 1 else 0,
       externalDelivered := b.externalDelivered + if d.status == ExternalDelivered then 1 else 0,
       failures := b.failures + if d.status == Failed then 1 else 0,
       outcomeUnknown := b.outcomeUnknown + if d.status == OutcomeUnknown then 1 else 0,
       diagnostics := kept)
  }

  /** Appending and trimming in place keeps exactly the last outcomes. */
  lemma RecordedAgrees(b: Books, limit: nat, history: seq<Diagnostic>, d: Diagnostic)
    requires Agree(b, limit, history) && limit >= 1
    ensures Agree(Recorded(b, limit, d), limit, history + [d])
  {
    hide CountStatus;
    CountAppend(history, d, LocalAccepted);
    CountAppend(history, d, ExternalDelivered);
    CountAppend(history, d, Failed);
    CountAppend(history, d, OutcomeUnknown);
    assert Recorded(b, limit, d).diagnostics == LastOf(history + [d], limit);
  }

  // ---- One call ------------------------------------------------------------------

  /** How many times a call fails before its last attempt: it stops at the first
    * answer that is not a known-not-sent failure, or at the attempt limit. */
  function RetriesOf(answers: seq<Answer>, maxAttempts: nat): (n: nat)
    requires 1 <= maxAttempts <= |answers|
    ensures n < maxAttempts
    ensures forall k :: 0 <= k < n ==> answers[k] == NotSent
    ensures n == maxAttempts - 1 || answers[n] != NotSent
  {
    if answers[0] != NotSent || maxAttempts == 1 then 0 else 1 + RetriesOf(answers[1..], maxAttempts - 1)
  }

  lemma {:induction false} RetriesUnique(answers: seq<Answer>, maxAttempts: nat, n: nat)
    requires 1 <= maxAttempts <= |answers| && n < maxAttempts
    requires forall k :: 0 <= k < n ==> answers[k] == NotSent
    requires n == maxAttempts - 1 || answers[n] != NotSent
    ensures n == RetriesOf(answers, maxAttempts)
    decreases n
  {
    if n > 0 {
      RetriesUnique(answers[1..], maxAttempts - 1, n - 1);
    }
  }

  class ObservableEventPublisher {
    const settings: Settings
    var attempts: nat
    var retries: nat
    var localAccepted: nat
    var externalDelivered: nat
    var failures: nat
    var outcomeUnknown: nat
    var diagnostics: seq<Diagnostic>
    /** Every outcome so far. */
    ghost var history: seq<Diagnostic>

    constructor (settings: Settings)
      requires settings.Valid()
      ensures this.settings == settings && Valid() && history == [] && attempts == 0 && retries == 0
    {
      this.settings := settings;
      attempts, retries, localAccepted, externalDelivered, failures, outcomeUnknown := 0, 0, 0, 0, 0, 0;
      diagnostics, history := [], [];
    }

    function Snapshot(): Books
      reads this
    {
      Books(attempts, retries, localAccepted, externalDelivered, failures, outcomeUnknown, diagnostics)
    }

    /** Between calls: the counters are those of the history, and each outcome took
      * one attempt that was not a retry. */
    ghost predicate Valid()
      reads this
    {
      && settings.Valid() && Agree(Snapshot(), settings.historyLimit, history)
      && attempts - retries == |history|
    }

    /** The delegate answers each attempt in turn. The call raises unless the last
      * answer is a delivery. */
    method Publish(event: Event, answers: seq<Answer>) returns (raised: bool)
      requires Valid() && |answers| >= settings.maxAttempts
      modifies this
      ensures Valid()
      ensures var n := RetriesOf(answers, settings.maxAttempts);
              && raised == (answers[n] != Delivered)
              && attempts == old(attempts) + n + 1 && retries == old(retries) + n
              && history == old(history) + [Terminal(settings, event, answers[n], n)]
    {
      var tried, retried := 0, 0;
      while tried < settings.maxAttempts
        invariant 0 <= tried == retried < settings.maxAttempts
        invariant forall k :: 0 <= k < tried ==> answers[k] == NotSent
        invariant attempts == old(attempts) + tried && retries == old(retries) + retried
        invariant history == old(history) && Agree(Snapshot(), settings.historyLimit, history)
        decreases settings.maxAttempts - tried
      {
        hide Agree, LastOf, StatusFor, ReasonFor;
        var answer := answers[tried];
        tried := tried + 1;
        AgreeIgnoresAttempts(Snapshot(), settings.historyLimit, history, attempts + 1, retries);
        attempts := attempts + 1;
        if answer == NotSent && tried < settings.maxAttempts {
          retried := retried + 1;
          AgreeIgnoresAttempts(Snapshot(), settings.historyLimit, history, attempts, retries + 1);
          retries := retries + 1;
          continue;
        }
        RetriesUnique(answers, settings.maxAttempts, retried);
        RecordTerminal(Terminal(settings, event, answer, retried));
        return answer != Delivered;
      }
    }

    method RecordTerminal(d: Diagnostic)
      requires Agree(Snapshot(), settings.historyLimit, history) && settings.historyLimit >= 1
      modifies this
      ensures Snapshot() == Recorded(old(Snapshot()), settings.historyLimit, d)
      ensures history == old(history) + [d]
      ensures Agree(Snapshot(), settings.historyLimit, history)
    {
      hide Agree;
      RecordedAgrees(Snapshot(), settings.historyLimit, history, d);
      if d.status == LocalAccepted {
        localAccepted := localAccepted + 1;
      } else if d.status == ExternalDelivered {
        externalDelivered := externalDelivered + 1;
      } else if d.status == Failed {
        failures := failures + 1;
      } else {
        outcomeUnknown := outcomeUnknown + 1;
      }
      KeepRecent(d);
      history := history + [d];
    }

    /** Append, then delete the overflow from the front. */
    method KeepRecent(d: Diagnostic)
      modifies this`diagnostics
      ensures diagnostics == var appended := old(diagnostics) + [d];
                             if |appended| > settings.historyLimit then appended[|appended| - settings.historyLimit..]
                             else appended
    {
      diagnostics := diagnostics + [d];
      var overflow := |diagnostics| - settings.historyLimit;
      if overflow > 0 {
        diagnostics := diagnostics[overflow..];
      }
    }
  }

  lemma AgreeIgnoresAttempts(b: Books, limit: nat, history: seq<Diagnostic>, attempts: nat, retries: nat)
    requires Agree(b, limit, history)
    ensures Agree(b.(attempts := attempts, retries := retries), limit, history)
  {
  }

  // ---- Interleaved calls -----------------------------------------------------------

  /** Where a call is: about to attempt, waiting for the delegate, with its answer,
    * or finished. */
  datatype Pc = Ready | Waiting | Answered | Finished

  /** `answers` are those the call has received. */
  datatype Call = Call(event: Event, pc: Pc, answers: seq<Answer>)

  datatype World = World(settings: Settings, books: Books, calls: seq<Call>, history: seq<Diagnostic>)

  datatype Action = Action(call: nat, answer: Answer)

  predicate MayStep(w: World, a: Action) {
    a.call < |w.calls| && w.calls[a.call].pc != Finished
  }

  /** A known-not-sent failure with attempts left. */
  predicate Retries(w: World, c: Call) {
    c.answers != [] && c.answers[|c.answers| - 1] == NotSent && |c.answers| < w.settings.maxAttempts
  }

  /** One atomic step: each counter update is one critical section, and the
    * delegate is called outside all of them. */
  function Step(w: World, a: Action): World
    requires MayStep(w, a)
  {
    var c := w.calls[a.call];
    match c.pc
    case Ready =>
      w.(books := w.books.(attempts := w.books.attempts + 1), calls := w.calls[a.call := c.(pc := Waiting)])
    case Waiting =>
      w.(calls := w.calls[a.call := c.(pc := Answered, answers := c.answers + [a.answer])])
    case Answered =>
      if c.answers == [] then w
      else if Retries(w, c) then
        w.(books := w.books.(retries := w.books.retries + 1), calls := w.calls[a.call := c.(pc := Ready)])
      else
        var d := Terminal(w.settings, c.event, c.answers[|c.answers| - 1], |c.answers| - 1);
        w.(books := Recorded(w.books, w.settings.historyLimit, d), history := w.history + [d],
           calls := w.calls[a.call := c.(pc := Finished)])
  }

  ghost predicate Reaches(w: World, actions: seq<Action>, w': World)
    decreases |actions|
  {
    if actions == [] then w' == w
    else MayStep(w, actions[0]) && Reaches(Step(w, actions[0]), actions[1..], w')
  }

  /** Calls that have all just begun, on a fresh publisher. */
  predicate Initial(w: World) {
    && w.settings.Valid() && w.books == Books(0, 0, 0, 0, 0, 0, []) && w.history == []
    && forall i :: 0 <= i < |w.calls| ==> w.calls[i].pc == Ready && w.calls[i].answers == []
  }

  /** The outcome a finished call recorded. */
  function OutcomeOf(s: Settings, c: Call): Diagnostic
    requires c.answers != []
  {
    Terminal(s, c.event, c.answers[|c.answers| - 1], |c.answers| - 1)
  }

  predicate InAttempt(c: Call) { c.pc == Waiting || c.pc == Answered }

  function FinishedIn(calls: seq<Call>): nat {
    if calls == [] then 0 else (if calls[0].pc == Finished then 1 else 0) + FinishedIn(calls[1..])
  }

  lemma {:induction false} FinishedUpdate(calls: seq<Call>, i: nat, c: Call)
    requires i < |calls|
    ensures FinishedIn(calls[i := c]) + (if calls[i].pc == Finished then 1 else 0)
            == FinishedIn(calls) + if c.pc == Finished then 1 else 0
    decreases |calls|
  {
    if i == 0 {
      assert calls[0 := c][1..] == calls[1..];
    } else {
      assert calls[i := c][1..] == calls[1..][i - 1 := c];
      FinishedUpdate(calls[1..], i - 1, c);
    }
  }

  function InAttempts(calls: seq<Call>): nat {
    if calls == [] then 0 else (if InAttempt(calls[0]) then 1 else 0) + InAttempts(calls[1..])
  }

  lemma {:induction false} InAttemptsUpdate(calls: seq<Call>, i: nat, c: Call)
    requires i < |calls|
    ensures InAttempts(calls[i := c]) + (if InAttempt(calls[i]) then 1 else 0)
            == InAttempts(calls) + if InAttempt(c) then 1 else 0
    decreases |calls|
  {
    hide InAttempt;
    if i == 0 {
      assert calls[0 := c][1..] == calls[1..];
    } else {
      assert calls[i := c][1..] == calls[1..][i - 1 := c];
      InAttemptsUpdate(calls[1..], i - 1, c);
    }
  }

  /** A call's answers: every one but the last is a known-not-sent failure, and it
    * never has more than the limit allows. */
  ghost predicate Disciplined(s: Settings, c: Call) {
    && (forall k :: 0 <= k < |c.answers| - 1 ==> c.answers[k] == NotSent)
    && (c.pc == Ready || c.pc == Waiting ==> forall k :: 0 <= k < |c.answers| ==> c.answers[k] == NotSent)
    && (c.pc == Answered || c.pc == Finished ==> 1 <= |c.answers| <= s.maxAttempts)
    && (c.pc == Ready || c.pc == Waiting ==> |c.answers| < s.maxAttempts)
    && (c.pc == Finished ==> |c.answers| == s.maxAttempts || c.answers[|c.answers| - 1] != NotSent)
  }

  ghost predicate Inv(w: World) {
    && w.settings.Valid()
    && Agree(w.books, w.settings.historyLimit, w.history)
    && w.books.attempts == w.books.retries + |w.history| + InAttempts(w.calls)
    && |w.history| == FinishedIn(w.calls)
    && (forall i :: 0 <= i < |w.calls| ==> Disciplined(w.settings, w.calls[i]))
    && (forall i :: 0 <= i < |w.calls| ==> Listed(w, w.calls[i]))
  }

  ghost predicate Listed(w: World, c: Call) {
    c.pc == Finished && c.answers != [] ==> OutcomeOf(w.settings, c) in w.history
  }

  lemma InitialInv(w: World)
    requires Initial(w)
    ensures Inv(w)
  {
    NoneInAttempt(w.calls);
  }

  lemma {:induction false} NoneInAttempt(calls: seq<Call>)
    requires forall i :: 0 <= i < |calls| ==> calls[i].pc == Ready
    ensures InAttempts(calls) == FinishedIn(calls) == 0
  {
    if calls != [] {
      NoneInAttempt(calls[1..]);
    }
  }

  lemma CallStaysDisciplined(w: World, a: Action)
    requires MayStep(w, a) && Disciplined(w.settings, w.calls[a.call])
    ensures Step(w, a).settings == w.settings && |Step(w, a).calls| == |w.calls|
    ensures Disciplined(w.settings, Step(w, a).calls[a.call])
    ensures forall i :: 0 <= i < |w.calls| && i != a.call ==> Step(w, a).calls[i] == w.calls[i]
  {
    hide Recorded, Terminal;
  }

  lemma BooksStay(w: World, a: Action)
    requires MayStep(w, a) && Agree(w.books, w.settings.historyLimit, w.history) && w.settings.Valid()
    ensures Agree(Step(w, a).books, w.settings.historyLimit, Step(w, a).history)
  {
    hide Agree, Recorded, Terminal;
    var c := w.calls[a.call];
    if c.pc == Ready {
      AgreeIgnoresAttempts(w.books, w.settings.historyLimit, w.history, w.books.attempts + 1, w.books.retries);
    } else if c.pc == Answered && c.answers != [] {
      AgreeIgnoresAttempts(w.books, w.settings.historyLimit, w.history, w.books.attempts, w.books.retries + 1);
      RecordedAgrees(w.books, w.settings.historyLimit, w.history,
                     Terminal(w.settings, c.event, c.answers[|c.answers| - 1], |c.answers| - 1));
    }
  }

  lemma OutcomesStay(w: World, a: Action)
    requires MayStep(w, a) && Disciplined(w.settings, w.calls[a.call]) && |w.history| == FinishedIn(w.calls)
    requires forall i :: 0 <= i < |w.calls| ==> Listed(w, w.calls[i])
    ensures |Step(w, a).history| == FinishedIn(Step(w, a).calls)
    ensures forall i :: 0 <= i < |w.calls| ==> Listed(Step(w, a), Step(w, a).calls[i])
  {
    hide Terminal, FinishedIn, Recorded;
    var w' := Step(w, a);
    FinishedUpdate(w.calls, a.call, w'.calls[a.call]);
    forall i | 0 <= i < |w.calls| ensures Listed(w', w'.calls[i]) {
      if i != a.call {
        assert Listed(w, w.calls[i]);
      } else if w'.calls[i].pc == Finished {
        assert w'.history[|w.history|] == OutcomeOf(w.settings, w'.calls[i]);
      }
    }
  }

  lemma AttemptsStay(w: World, a: Action)
    requires MayStep(w, a) && Disciplined(w.settings, w.calls[a.call])
    requires w.books.attempts == w.books.retries + |w.history| + InAttempts(w.calls)
    ensures var w' := Step(w, a);
            w'.books.attempts == w'.books.retries + |w'.history| + InAttempts(w'.calls)
  {
    hide Terminal, InAttempts;
    InAttemptsUpdate(w.calls, a.call, Step(w, a).calls[a.call]);
  }

  lemma StepKeepsInv(w: World, a: Action)
    requires MayStep(w, a) && Inv(w)
    ensures Inv(Step(w, a))
  {
    hide Step, Agree, Disciplined, InAttempts, FinishedIn, Listed;
    CallStaysDisciplined(w, a);
    BooksStay(w, a);
    AttemptsStay(w, a);
    OutcomesStay(w, a);
  }

  lemma {:induction false} RunKeepsInv(w: World, actions: seq<Action>, w': World)
    requires Inv(w) && Reaches(w, actions, w')
    ensures Inv(w') && w'.settings == w.settings
    decreases |actions|
  {
    hide Inv, Step;
    if actions != [] {
      StepKeepsInv(w, actions[0]);
      SettingsStay(w, actions[0]);
      RunKeepsInv(Step(w, actions[0]), actions[1..], w');
    }
  }

  lemma SettingsStay(w: World, a: Action)
    requires MayStep(w, a)
    ensures Step(w, a).settings == w.settings
  {
  }

  /** In every interleaving: attempts that were not retries are the outcomes plus
    * the calls still in an attempt; the outcomes are the four counters; and the
    * diagnostics are exactly the last of them. */
  lemma DeliveryConserves(w: World, actions: seq<Action>, w': World)
    requires Initial(w) && Reaches(w, actions, w')
    ensures w'.books.attempts - w'.books.retries == Terminals(w'.books) + InAttempts(w'.calls)
    ensures Terminals(w'.books) == |w'.history| == FinishedIn(w'.calls)
    ensures w'.books.diagnostics == LastOf(w'.history, w.settings.historyLimit)
  {
    InitialInv(w);
    RunKeepsInv(w, actions, w');
    CountersAddUp(w'.history);
  }

  /** No call makes another attempt after an answer that does not prove the event
    * unsent, nor more attempts than allowed; a finished call stopped for one of
    * these two reasons. */
  lemma NothingRepeatedBlindly(w: World, actions: seq<Action>, w': World, i: nat)
    requires Initial(w) && Reaches(w, actions, w') && i < |w'.calls|
    ensures var c := w'.calls[i];
            && |c.answers| <= w.settings.maxAttempts
            && (forall k :: 0 <= k < |c.answers| && c.answers[k] != NotSent ==>
                  k == |c.answers| - 1 && (c.pc == Answered || c.pc == Finished))
            && (c.pc == Finished ==>
                  c.answers != []
                  && (|c.answers| == w.settings.maxAttempts || c.answers[|c.answers| - 1] != NotSent))
  {
    hide Agree, InAttempts;
    InitialInv(w);
    RunKeepsInv(w, actions, w');
    assert Disciplined(w'.settings, w'.calls[i]);
  }

  /** A finished call made the attempts, and recorded the outcome, that `Publish`
    * alone would have with a delegate that answers the same. */
  lemma FinishedLikeAlone(w: World, actions: seq<Action>, w': World, i: nat, answers: seq<Answer>)
    requires Initial(w) && Reaches(w, actions, w') && i < |w'.calls| && w'.calls[i].pc == Finished
    requires w'.calls[i].answers <= answers && |answers| >= w.settings.maxAttempts
    ensures w.settings.Valid()
    ensures var n := RetriesOf(answers, w.settings.maxAttempts);
            && |w'.calls[i].answers| == n + 1
            && Terminal(w.settings, w'.calls[i].event, answers[n], n) in w'.history
  {
    hide Agree, InAttempts, FinishedIn, Terminal;
    InitialInv(w);
    RunKeepsInv(w, actions, w');
    var c := w'.calls[i];
    assert Disciplined(w'.settings, c) && Listed(w', c);
    RetriesUnique(answers, w.settings.maxAttempts, |c.answers| - 1);
  }

  /** What an outcome may say of a call that received these answers: whose event it
    * was and how often it was tried; delivered exactly on the delegate's word, unknown
    * exactly when an external delegate broke down, failed otherwise; and the reason
    * tells the six cases apart. */
  ghost predicate Truthful(s: Settings, event: Event, answers: seq<Answer>, d: Diagnostic) {
    && answers != []
    && d.eventId == event.id && d.correlationId == event.correlationId && d.capability == s.capability
    && d.attempts == |answers| == d.retries + 1
    && var last, external := answers[|answers| - 1], s.capability == ExternalDelivery;
    && (d.status == ExternalDelivered <==> last == Delivered && external)
    && (d.status == LocalAccepted <==> last == Delivered && !external)
    && (d.status == OutcomeUnknown <==> last == Broken && external)
    && (d.reasonCode == EXTERNAL_DELIVERY_ACKNOWLEDGED <==> d.status == ExternalDelivered)
    && (d.reasonCode == EXTERNAL_DELIVERY_OUTCOME_UNKNOWN <==> d.status == OutcomeUnknown)
    && (d.reasonCode == NULL_NO_EXTERNAL_DELIVERY <==> d.status == LocalAccepted && s.capability == Null)
    && (d.reasonCode == LOCAL_DELIVERY_ACCEPTED <==> d.status == LocalAccepted && s.capability == LocalRecording)
    && (d.reasonCode == RETRY_EXHAUSTED <==> d.status == Failed && last == NotSent)
    && (d.reasonCode == DELIVERY_FAILED <==> d.status == Failed && last == Broken)
  }

  lemma StatusTellsTheTruth(s: Settings, event: Event, answers: seq<Answer>)
    requires answers != []
    ensures Truthful(s, event, answers, Terminal(s, event, answers[|answers| - 1], |answers| - 1))
  {
  }

  /** In every interleaving every finished call left a truthful outcome; one that gave
    * up retrying was proved unsent by every attempt it was allowed. */
  lemma EveryOutcomeIsTruthful(w: World, actions: seq<Action>, w': World, i: nat)
    requires Initial(w) && Reaches(w, actions, w') && i < |w'.calls| && w'.calls[i].pc == Finished
    ensures var c := w'.calls[i];
            exists d :: d in w'.history && Truthful(w.settings, c.event, c.answers, d)
                     && (d.reasonCode == RETRY_EXHAUSTED ==>
                           && |c.answers| == w.settings.maxAttempts
                           && forall k :: 0 <= k < |c.answers| ==> c.answers[k] == NotSent)
  {
    hide Agree, InAttempts, FinishedIn, Terminal, Truthful;
    InitialInv(w);
    RunKeepsInv(w, actions, w');
    var c := w'.calls[i];
    assert Disciplined(w'.settings, c) && Listed(w', c);
    StatusTellsTheTruth(w.settings, c.event, c.answers);
    ExhaustedMeansUnsent(w.settings, c, OutcomeOf(w.settings, c));
  }

  lemma ExhaustedMeansUnsent(s: Settings, c: Call, d: Diagnostic)
    requires Disciplined(s, c) && c.pc == Finished && Truthful(s, c.event, c.answers, d)
    ensures d.reasonCode == RETRY_EXHAUSTED ==>
              |c.answers| == s.maxAttempts && forall k :: 0 <= k < |c.answers| ==> c.answers[k] == NotSent
  {
  }
}
