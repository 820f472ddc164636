/** Safe submission of a previewed trade (volcanoes/application/services/
  * submit_trade.py): replanning against the preview, the reservation of a request
  * under a lock, and what any number of concurrent calls keep.
  */
module SubmitTrade {
  import opened Wrappers
  import opened TradePolicies
  import opened TradePlanner

  // ---- Replanning --------------------------------------------------------------

  /** The plan values a preview displayed. */
  datatype ExpectedPlan = ExpectedPlan(
    approved: bool,
    quantity: nat,
    dollarRisk: real,
    positionValue: real,
    reasons: seq<Reason>,
    riskCode: Option<Code>,
    correlationId: string)

  function FromPlan(plan: TradePlan, correlationId: string): ExpectedPlan {
    ExpectedPlan(plan.approved, plan.sizing.quantity, plan.sizing.dollarRisk, plan.sizing.positionValue,
                 plan.reasons, plan.riskCode, correlationId)
  }

  datatype Request = Request(
    symbol: string,
    side: Side,
    entryPrice: real,
    stopPrice: real,
    targetPrice: real,
    expected: ExpectedPlan)
  {
    function Intent(): TradeIntent { TradeIntent(symbol, side, entryPrice, stopPrice) }

    /** What `_create_intent` accepts. */
    predicate Valid() {
      && targetPrice > 0.0
      && (if side == Buy then targetPrice > entryPrice else targetPrice < entryPrice)
      && Intent().Valid()
    }
  }

  datatype PlanField = Approved | Quantity | DollarRisk | PositionValue | Reasons | RiskCode

  function Differences(expected: ExpectedPlan, actual: ExpectedPlan): seq<PlanField> {
    (if expected.approved != actual.approved then [Approved] else [])
    + (if expected.quantity != actual.quantity then [Quantity] else [])
    + (if expected.dollarRisk != actual.dollarRisk then [DollarRisk] else [])
    + (if expected.positionValue != actual.positionValue then [PositionValue] else [])
    + (if expected.reasons != actual.reasons then [Reasons] else [])
    + (if expected.riskCode != actual.riskCode then [RiskCode] else [])
  }

  datatype RejectionCode =
    | InvalidRequest
    | PlanRejected(code: Option<Code>)
    | PlanDrift(differences: seq<PlanField>)
    | DuplicateSubmission
    | ExecutionRejected
    | BrokerRejected
    | BrokerError

  /** What a call decides before it reserves: a rejection, or the plan to submit. */
  function Replanned(request: Request, policies: PolicySet, maximumRisk: real, portfolio: PortfolioView,
                     openOrders: set<string>): Result<TradePlan, RejectionCode>
  {
    if !request.Valid() then Err(InvalidRequest)
    else
      var plan := Planned(policies, maximumRisk, portfolio, request.Intent(), Some(request.targetPrice), openOrders);
      if plan.Err? then Err(InvalidRequest)
      else
        var differences := Differences(request.expected, FromPlan(plan.value, request.expected.correlationId));
        if differences != [] then Err(PlanDrift(differences))
        else if !plan.value.approved then Err(PlanRejected(plan.value.riskCode))
        else Ok(plan.value)
  }

  /** Nothing differs exactly when the two plans agree on every material value. */
  lemma NoDifferenceIsSame(expected: ExpectedPlan, actual: ExpectedPlan)
    ensures Differences(expected, actual) == [] <==> expected == actual.(correlationId := expected.correlationId)
  {
  }

  predicate Differs(field: PlanField, expected: ExpectedPlan, actual: ExpectedPlan) {
    match field
    case Approved => expected.approved != actual.approved
    case Quantity => expected.quantity != actual.quantity
    case DollarRisk => expected.dollarRisk != actual.dollarRisk
    case PositionValue => expected.positionValue != actual.positionValue
    case Reasons => expected.reasons != actual.reasons
    case RiskCode => expected.riskCode != actual.riskCode
  }

  function Place(field: PlanField): nat {
    match field
    case Approved => 0
    case Quantity => 1
    case DollarRisk => 2
    case PositionValue => 3
    case Reasons => 4
    case RiskCode => 5
  }

  ghost predicate InPlace(fields: seq<PlanField>, n: nat) {
    && (forall i, j :: 0 <= i < j < |fields| ==> Place(fields[i]) < Place(fields[j]))
    && (forall i :: 0 <= i < |fields| ==> Place(fields[i]) < n)
  }

  lemma AppendInPlace(fields: seq<PlanField>, differs: bool, field: PlanField)
    requires InPlace(fields, Place(field))
    ensures InPlace(fields + (if differs then [field] else []), Place(field) + 1)
    ensures forall f :: f in fields + (if differs then [field] else []) <==> f in fields || (differs && f == field)
  {
    hide Place;
  }

  /** A difference is named exactly for each value that differs, once, in order. */
  lemma DifferencesExactly(expected: ExpectedPlan, actual: ExpectedPlan)
    ensures InPlace(Differences(expected, actual), 6)
    ensures forall field :: field in Differences(expected, actual) <==> Differs(field, expected, actual)
  {
    hide InPlace;
    var d1 := [] + (if expected.approved != actual.approved then [Approved] else []);
    var d2 := d1 + (if expected.quantity != actual.quantity then [Quantity] else []);
    var d3 := d2 + (if expected.dollarRisk != actual.dollarRisk then [DollarRisk] else []);
    var d4 := d3 + (if expected.positionValue != actual.positionValue then [PositionValue] else []);
    var d5 := d4 + (if expected.reasons != actual.reasons then [Reasons] else []);
    NothingInPlace();
    AppendInPlace([], expected.approved != actual.approved, Approved);
    AppendInPlace(d1, expected.quantity != actual.quantity, Quantity);
    AppendInPlace(d2, expected.dollarRisk != actual.dollarRisk, DollarRisk);
    AppendInPlace(d3, expected.positionValue != actual.positionValue, PositionValue);
    AppendInPlace(d4, expected.reasons != actual.reasons, Reasons);
    AppendInPlace(d5, expected.riskCode != actual.riskCode, RiskCode);
    assert d1 == if expected.approved != actual.approved then [Approved] else [];
  }

  lemma NothingInPlace()
    ensures InPlace([], 0)
  {
  }

  /** A call goes on to the broker exactly when planning afresh reproduces the
    * preview and the preview was approved; what it submits is what was shown: the
    * displayed quantity of the requested symbol at the requested price, at least one
    * share. */
  lemma SubmitsWhatWasShown(request: Request, policies: PolicySet, maximumRisk: real, portfolio: PortfolioView,
                            openOrders: set<string>)
    ensures var r := Replanned(request, policies, maximumRisk, portfolio, openOrders);
            r.Ok? <==>
              && request.Valid() && request.expected.approved
              && var plan := Planned(policies, maximumRisk, portfolio, request.Intent(), Some(request.targetPrice),
                                     openOrders);
                 && plan.Ok? && FromPlan(plan.value, request.expected.correlationId) == request.expected
    ensures var r := Replanned(request, policies, maximumRisk, portfolio, openOrders);
            r.Ok? ==>
              && r.value.approved && FromPlan(r.value, request.expected.correlationId) == request.expected
              && request.expected.quantity >= 1
              && r.value.request == Some(TradeRequest(request.symbol, request.expected.quantity, request.entryPrice))
  {
    hide Planned, Differences, PlanByLaw;
    if request.Valid() {
      var plan := Planned(policies, maximumRisk, portfolio, request.Intent(), Some(request.targetPrice), openOrders);
      if plan.Ok? {
        NoDifferenceIsSame(request.expected, FromPlan(plan.value, request.expected.correlationId));
        ApprovedOrder(policies, maximumRisk, portfolio, request.Intent(), Some(request.targetPrice), openOrders);
      }
    }
  }

  /** An approved plan orders its quantity, which is not zero. */
  lemma ApprovedOrder(policies: PolicySet, maximumRisk: real, portfolio: PortfolioView, intent: TradeIntent,
                      target: Option<real>, openOrders: set<string>)
    requires intent.Valid()
    ensures var plan := Planned(policies, maximumRisk, portfolio, intent, target, openOrders);
            plan.Ok? && plan.value.approved ==>
              && plan.value.sizing.quantity >= 1
              && plan.value.request == Some(TradeRequest(intent.symbol, plan.value.sizing.quantity, intent.entryPrice))
  {
    hide Planned, RiskQuantity, AskedInOrder, LeastLimit, AllApprove;
    PlansByLaw(policies, maximumRisk, portfolio, intent, target, openOrders);
  }

  /** Why a call stops before it reserves: a request that is malformed or cannot be
    * planned, a plan that is not the displayed one, or one that was not approved. */
  lemma StopsBeforeReserving(request: Request, policies: PolicySet, maximumRisk: real, portfolio: PortfolioView,
                             openOrders: set<string>)
    ensures var r := Replanned(request, policies, maximumRisk, portfolio, openOrders);
            if !request.Valid() || portfolio.equity <= 0.0 || maximumRisk <= 0.0 || maximumRisk > 1.0 then
              r == Err(InvalidRequest)
            else
              var plan := Planned(policies, maximumRisk, portfolio, request.Intent(), Some(request.targetPrice),
                                  openOrders);
              && plan.Ok?
              && var shown := FromPlan(plan.value, request.expected.correlationId);
                 if shown != request.expected then
                   r.Err? && r.error.PlanDrift? && r.error.differences == Differences(request.expected, shown) != []
                 else if !request.expected.approved then r == Err(PlanRejected(request.expected.riskCode))
                 else r == Ok(plan.value)
  {
    hide Planned, Differences, PlanByLaw;
    if request.Valid() {
      var plan := Planned(policies, maximumRisk, portfolio, request.Intent(), Some(request.targetPrice), openOrders);
      PlanningFails(policies, maximumRisk, portfolio, request.Intent(), Some(request.targetPrice), openOrders);
      if plan.Ok? {
        NoDifferenceIsSame(request.expected, FromPlan(plan.value, request.expected.correlationId));
      }
    }
  }

  lemma PlanningFails(policies: PolicySet, maximumRisk: real, portfolio: PortfolioView, intent: TradeIntent,
                      target: Option<real>, openOrders: set<string>)
    requires intent.Valid()
    ensures Planned(policies, maximumRisk, portfolio, intent, target, openOrders).Err?
            <==> portfolio.equity <= 0.0 || maximumRisk <= 0.0 || maximumRisk > 1.0
  {
    hide Planned;
    PlansByLaw(policies, maximumRisk, portfolio, intent, target, openOrders);
  }

  // ---- Reservations --------------------------------------------------------------

  /** What the broker port does; it can take the order and then raise, as when its
    * answer cannot be converted or does not arrive. */
  datatype BrokerAnswer =
    | Raises(taken: bool)
    | NotExecuted
    | Refuses(cancelled: bool)
    | Accepts(filled: bool)

  datatype Outcome = Submitted | NotSubmitted(code: RejectionCode) | Raised

  /** What the broker answers and which publications raise, for one call. */
  datatype Answers = Answers(
    broker: BrokerAnswer,
    announcement: bool,
    fill: bool,
    cancellation: bool,
    rejection: bool,
    failure: bool)
  {
    /** The broker takes the order and every announcement of it goes out. */
    predicate Succeed() {
      broker.Accepts? && !announcement && (broker.filled ==> !fill)
    }

    /** The broker takes the order, whatever follows. */
    predicate Take() { broker.Accepts? || (broker.Raises? && broker.taken) }

    /** Something raises between the reservation and the release. */
    predicate Fail() {
      || broker.Raises?
      || (broker.Accepts? && !Succeed())
      || (broker.Refuses? && broker.cancelled && cancellation)
      || ((broker.Refuses? || broker.NotExecuted?) && rejection)
    }

    /** What a call that holds the reservation comes to. */
    function Resolved(): Outcome {
      if Succeed() then Submitted
      else if Fail() then Failure()
      else NotSubmitted(if broker.NotExecuted? then ExecutionRejected else BrokerRejected)
    }

    function Failure(): Outcome { if failure then Raised else NotSubmitted(BrokerError) }
  }

  /** What a call comes to, given whether its request is taken already. */
  function CallOutcome(taken: bool, plan: Result<TradePlan, RejectionCode>, answers: Answers): Outcome {
    if plan.Err? then if answers.rejection then Raised else NotSubmitted(plan.error)
    else if taken then if answers.rejection then Raised else NotSubmitted(DuplicateSubmission)
    else answers.Resolved()
  }

  /** What a call answers, by what happened: a duplicate, a refusal by the pipeline or
    * the broker, an error when the broker or an announcement raised, a raise when even
    * reporting that failed, and success otherwise. */
  lemma OutcomeExactly(taken: bool, plan: Result<TradePlan, RejectionCode>, answers: Answers)
    ensures var outcome := CallOutcome(taken, plan, answers);
            var broker := answers.broker;
            var broken := || broker.Raises?
                          || (broker.Accepts? && (answers.announcement || (broker.filled && answers.fill)))
                          || (broker.Refuses? && broker.cancelled && answers.cancellation)
                          || (!broker.Accepts? && answers.rejection);
            if plan.Err? then outcome == if answers.rejection then Raised else NotSubmitted(plan.error)
            else if taken then outcome == if answers.rejection then Raised else NotSubmitted(DuplicateSubmission)
            else
              && (outcome == Raised <==> broken && answers.failure)
              && (outcome == NotSubmitted(BrokerError) <==> broken && !answers.failure)
              && (outcome == NotSubmitted(ExecutionRejected) <==> !broken && broker.NotExecuted?)
              && (outcome == NotSubmitted(BrokerRejected) <==> !broken && broker.Refuses?)
              && (outcome == Submitted <==> !broken && broker.Accepts?)
  {
  }

  class SubmitTradeService {
    var submitted: set<Request>
    var inFlight: set<Request>

    constructor ()
      ensures Valid() && submitted == {} && inFlight == {}
    {
      submitted, inFlight := {}, {};
    }

    ghost predicate Valid()
      reads this
    {
      submitted !! inFlight
    }

    /** `_reserve_submission`, under the lock: whether the request is a duplicate. */
    method Reserve(request: Request) returns (duplicate: bool)
      requires Valid()
      modifies this`inFlight
      ensures Valid()
      ensures duplicate <==> request in old(submitted) || request in old(inFlight)
      ensures inFlight == if duplicate then old(inFlight) else old(inFlight) + {request}
    {
      if request in submitted || request in inFlight {
        return true;
      }
      inFlight := inFlight + {request};
      duplicate := false;
    }

    /** `_release_submission`, under the lock. */
    method Release(request: Request, wasSubmitted: bool)
      requires Valid()
      modifies this
      ensures Valid()
      ensures inFlight == old(inFlight) - {request}
      ensures submitted == old(submitted) + if wasSubmitted then {request} else {}
    {
      inFlight := inFlight - {request};
      if wasSubmitted {
        submitted := submitted + {request};
      }
    }

    /** `_submit` after replanning: whatever is raised in between, the reservation is
      * released, and the request is recorded exactly when the call succeeds. */
    method Submit(request: Request, plan: Result<TradePlan, RejectionCode>, answers: Answers)
      returns (outcome: Outcome)
      requires Valid()
      modifies this
      ensures Valid() && inFlight == old(inFlight)
      ensures submitted == old(submitted) + if outcome == Submitted then {request} else {}
      ensures outcome == Submitted <==>
                && plan.Ok? && request !in old(submitted) && request !in old(inFlight) && answers.Succeed()
      ensures outcome == CallOutcome(request in old(submitted) || request in old(inFlight), plan, answers)
    {
      if plan.Err? {
        return if answers.rejection then Raised else NotSubmitted(plan.error);
      }
      var duplicate := Reserve(request);
      if duplicate {
        return if answers.rejection then Raised else NotSubmitted(DuplicateSubmission);
      }
      outcome := Execute(answers);
      Release(request, outcome == Submitted);
    }

    /** The part of `_submit` between reservation and release. */
    static method Execute(answers: Answers) returns (outcome: Outcome)
      ensures outcome == answers.Resolved()
      ensures outcome == Submitted <==> answers.Succeed()
    {
      var refused := None;
      var failed := false;
      match answers.broker {
        case Raises(_) =>
          failed := true;
        case NotExecuted =>
          refused := Some(ExecutionRejected);
        case Refuses(cancelled) =>
          refused := Some(BrokerRejected);
          failed := cancelled && answers.cancellation;
        case Accepts(filled) =>
          failed := answers.announcement || (filled && answers.fill);
      }
      if !failed && refused.Some? {
        failed := answers.rejection;
      }
      if failed {
        return if answers.failure then Raised else NotSubmitted(BrokerError);
      }
      outcome := if refused.Some? then NotSubmitted(refused.value) else Submitted;
    }
  }

  // ---- Concurrent calls ------------------------------------------------------------

  /** Where a call is. `Announcing` and `AnnouncingFill` come after the broker took
    * the order. */
  datatype Pc =
    | Planning
    | Reserving
    | Calling
    | Announcing(filled: bool)
    | AnnouncingFill
    | Cancelling
    | Rejecting(code: RejectionCode)
    | Failing
    | Releasing(outcome: Outcome)
    | Done(outcome: Outcome)

  datatype Thread = Thread(request: Request, pc: Pc)

  /** `accepted` counts the orders the broker took, and `lost` those after which the
    * broker or the publisher raised, so that the call forgot them. */
  datatype World = World(
    threads: seq<Thread>,
    submitted: set<Request>,
    inFlight: set<Request>,
    accepted: multiset<Request>,
    lost: multiset<Request>)

  /** One step of one thread: what planning finds, what the broker answers, and
    * whether the publisher raises, where the step asks for it. */
  datatype Action = Action(thread: nat, plan: Result<TradePlan, RejectionCode>, broker: BrokerAnswer, raises: bool)

  /** Between its reservation and its release. */
  predicate Holds(pc: Pc) {
    !pc.Planning? && !pc.Reserving? && !pc.Done?
  }

  /** This step is the broker call that takes the order and then raises. */
  predicate TakenAndRaised(pc: Pc, broker: BrokerAnswer) {
    pc.Calling? && broker.Raises? && broker.taken
  }

  /** The broker has taken the order and nothing has gone wrong since. */
  predicate Secure(pc: Pc) {
    pc.Announcing? || pc.AnnouncingFill? || pc == Releasing(Submitted)
  }

  function NextPc(w: World, t: Thread, a: Action): Pc
    requires !t.pc.Done?
  {
    match t.pc
    case Planning =>
      if a.plan.Ok? then Reserving else Done(if a.raises then Raised else NotSubmitted(a.plan.error))
    case Reserving =>
      if t.request in w.submitted || t.request in w.inFlight
      then Done(if a.raises then Raised else NotSubmitted(DuplicateSubmission)) else Calling
    case Calling =>
      (match a.broker
       case Raises(_) => Failing
       case NotExecuted => Rejecting(ExecutionRejected)
       case Refuses(cancelled) => if cancelled then Cancelling else Rejecting(BrokerRejected)
       case Accepts(filled) => Announcing(filled))
    case Announcing(filled) =>
      if a.raises then Failing else if filled then AnnouncingFill else Releasing(Submitted)
    case AnnouncingFill => if a.raises then Failing else Releasing(Submitted)
    case Cancelling => if a.raises then Failing else Rejecting(BrokerRejected)
    case Rejecting(code) => if a.raises then Failing else Releasing(NotSubmitted(code))
    case Failing => Releasing(if a.raises then Raised else NotSubmitted(BrokerError))
    case Releasing(outcome) => Done(outcome)
  }

  function Step(w: World, a: Action): World
    requires a.thread < |w.threads| && !w.threads[a.thread].pc.Done?
  {
    var t := w.threads[a.thread];
    var pc := NextPc(w, t, a);
    World(w.threads[a.thread := t.(pc := pc)],
          w.submitted + (if t.pc == Releasing(Submitted) then {t.request} else {}),
          (if t.pc.Releasing? then w.inFlight - {t.request}
           else if t.pc.Reserving? && pc.Calling? then w.inFlight + {t.request} else w.inFlight),
          w.accepted + (if (t.pc.Calling? && pc.Announcing?) || TakenAndRaised(t.pc, a.broker)
                        then multiset{t.request} else multiset{}),
          w.lost + (if (Secure(t.pc) && pc.Failing?) || TakenAndRaised(t.pc, a.broker)
                    then multiset{t.request} else multiset{}))
  }

  /** Calls that have all just begun, on a fresh service. */
  predicate Initial(w: World) {
    && (forall i :: 0 <= i < |w.threads| ==> w.threads[i].pc == Planning)
    && w.submitted == {} && w.inFlight == {} && w.accepted == multiset{} && w.lost == multiset{}
  }

  ghost predicate Reaches(w: World, actions: seq<Action>, w': World)
    decreases |actions|
  {
    if actions == [] then w' == w
    else
      && actions[0].thread < |w.threads| && !w.threads[actions[0].thread].pc.Done?
      && Reaches(Step(w, actions[0]), actions[1..], w')
  }

  // ---- The invariant ---------------------------------------------------------------

  ghost predicate HolderOf(w: World, i: nat, r: Request) {
    i < |w.threads| && w.threads[i].request == r && Holds(w.threads[i].pc)
  }

  /** A request is in flight exactly while one thread holds it. */
  ghost predicate Reservations(w: World) {
    && w.submitted !! w.inFlight
    && (forall i, r :: HolderOf(w, i, r) ==> r in w.inFlight)
    && (forall r :: r in w.inFlight ==> exists i :: HolderOf(w, i, r))
    && (forall i, j, r :: HolderOf(w, i, r) && HolderOf(w, j, r) ==> i == j)
  }

  ghost predicate ReturnedSubmitted(w: World, i: nat, r: Request) {
    i < |w.threads| && w.threads[i].request == r && w.threads[i].pc == Done(Submitted)
  }

  /** A request is recorded as submitted exactly when one call returned so. */
  ghost predicate Returns(w: World) {
    && (forall i, r :: ReturnedSubmitted(w, i, r) ==> r in w.submitted)
    && (forall r :: r in w.submitted ==> exists i :: ReturnedSubmitted(w, i, r))
    && (forall i, j, r :: ReturnedSubmitted(w, i, r) && ReturnedSubmitted(w, j, r) ==> i == j)
  }

  ghost predicate SecuredBy(w: World, i: nat, r: Request) {
    i < |w.threads| && w.threads[i].request == r && Secure(w.threads[i].pc)
  }

  ghost predicate Secured(w: World, r: Request) {
    r in w.submitted || exists i :: SecuredBy(w, i, r)
  }

  /** Every order the broker took is recorded, about to be, or lost to an exception
    * raised after it was taken. */
  ghost predicate Orders(w: World) {
    forall r :: w.accepted[r] == w.lost[r] + if Secured(w, r) then 1 else 0
  }

  /** The thread that acts, before and after. */
  ghost predicate Moves(w: World, i: nat, w': World) {
    && i < |w.threads| == |w'.threads|
    && w'.threads[i].request == w.threads[i].request
    && forall j :: 0 <= j < |w.threads| && j != i ==> w'.threads[j] == w.threads[j]
  }

  ghost predicate SameOrders(w: World, w': World) {
    w'.accepted == w.accepted && w'.lost == w.lost
  }

  /** The reservation succeeds. */
  ghost predicate Acquires(w: World, i: nat, w': World) {
    && Moves(w, i, w') && SameOrders(w, w')
    && var r := w.threads[i].request;
       && w.threads[i].pc == Reserving && w'.threads[i].pc == Calling
       && r !in w.submitted && r !in w.inFlight
       && w'.submitted == w.submitted && w'.inFlight == w.inFlight + {r}
  }

  /** The reservation ends, recording the request if it was submitted. */
  ghost predicate Releases(w: World, i: nat, w': World) {
    && Moves(w, i, w') && SameOrders(w, w')
    && var r := w.threads[i].request;
       && w.threads[i].pc.Releasing? && w'.threads[i].pc == Done(w.threads[i].pc.outcome)
       && w'.submitted == w.submitted + (if w.threads[i].pc.outcome == Submitted then {r} else {})
       && w'.inFlight == w.inFlight - {r}
  }

  /** Neither set changes; an order may be taken, lost track of, or both at once. */
  ghost predicate Proceeds(w: World, i: nat, w': World) {
    && Moves(w, i, w')
    && var (before, after) := (w.threads[i].pc, w'.threads[i].pc);
       var r := w.threads[i].request;
       && w'.submitted == w.submitted && w'.inFlight == w.inFlight
       && (Holds(after) <==> Holds(before))
       && !before.Releasing? && after != Done(Submitted)
       && (Secure(before) || Secure(after) ==> Holds(before))
       && ((w'.accepted == w.accepted + (if Secure(after) && !Secure(before) then multiset{r} else multiset{})
            && w'.lost == w.lost + (if Secure(before) && !Secure(after) then multiset{r} else multiset{}))
           || (!Secure(before) && !Secure(after)
               && w'.accepted == w.accepted + multiset{r} && w'.lost == w.lost + multiset{r}))
  }

  lemma StepKinds(w: World, a: Action)
    requires a.thread < |w.threads| && !w.threads[a.thread].pc.Done?
    ensures var w' := Step(w, a);
            Acquires(w, a.thread, w') || Releases(w, a.thread, w') || Proceeds(w, a.thread, w')
  {
    hide Step, NextPc, Holds, Secure;
    var t := w.threads[a.thread];
    if t.pc.Releasing? {
      StepReleases(w, a);
    } else if t.pc.Reserving? && NextPc(w, t, a) == Calling {
      StepAcquires(w, a);
    } else {
      StepProceeds(w, a);
    }
  }

  lemma StepReleases(w: World, a: Action)
    requires a.thread < |w.threads| && w.threads[a.thread].pc.Releasing?
    ensures Releases(w, a.thread, Step(w, a))
  {
  }

  lemma StepAcquires(w: World, a: Action)
    requires a.thread < |w.threads| && w.threads[a.thread].pc.Reserving?
    requires NextPc(w, w.threads[a.thread], a) == Calling
    ensures Acquires(w, a.thread, Step(w, a))
  {
  }

  lemma StepProceeds(w: World, a: Action)
    requires a.thread < |w.threads| && !w.threads[a.thread].pc.Done? && !w.threads[a.thread].pc.Releasing?
    requires !(w.threads[a.thread].pc.Reserving? && NextPc(w, w.threads[a.thread], a) == Calling)
    ensures Proceeds(w, a.thread, Step(w, a))
  {
  }

  lemma OthersStay(w: World, i: nat, w': World, j: nat, r: Request)
    requires Moves(w, i, w') && j != i
    ensures HolderOf(w', j, r) == HolderOf(w, j, r)
    ensures SecuredBy(w', j, r) == SecuredBy(w, j, r)
    ensures ReturnedSubmitted(w', j, r) == ReturnedSubmitted(w, j, r)
  {
  }

  lemma AcquireKeeps(w: World, i: nat, w': World)
    requires Acquires(w, i, w') && Reservations(w)
    ensures Reservations(w')
  {
    hide Holds;
    var mine := w.threads[i].request;
    assert HolderOf(w', i, mine) && !HolderOf(w, i, mine) by { CallingHolds(); }
    forall j, r | HolderOf(w', j, r) ensures r in w'.inFlight {
      if j != i { OthersStay(w, i, w', j, r); }
    }
    forall r | r in w'.inFlight ensures exists j :: HolderOf(w', j, r) {
      if r != mine {
        var j :| HolderOf(w, j, r);
        OthersStay(w, i, w', j, r);
      }
    }
    forall j, k, r | HolderOf(w', j, r) && HolderOf(w', k, r) ensures j == k {
      if j != i { OthersStay(w, i, w', j, r); }
      if k != i { OthersStay(w, i, w', k, r); }
    }
  }

  lemma CallingHolds()
    ensures Holds(Calling) && !Holds(Reserving)
  {
  }

  lemma ReleaseKeeps(w: World, i: nat, w': World)
    requires Releases(w, i, w') && Reservations(w)
    ensures Reservations(w')
  {
    var mine := w.threads[i].request;
    assert HolderOf(w, i, mine);
    forall j, r | HolderOf(w', j, r) ensures r in w'.inFlight {
      OthersStay(w, i, w', j, r);
    }
    forall r | r in w'.inFlight ensures exists j :: HolderOf(w', j, r) {
      var j :| HolderOf(w, j, r);
      OthersStay(w, i, w', j, r);
    }
    forall j, k, r | HolderOf(w', j, r) && HolderOf(w', k, r) ensures j == k {
      OthersStay(w, i, w', j, r);
      OthersStay(w, i, w', k, r);
    }
  }

  lemma ProceedKeeps(w: World, i: nat, w': World)
    requires Proceeds(w, i, w') && Reservations(w)
    ensures Reservations(w')
  {
    hide Holds, Secure;
    forall j, r ensures HolderOf(w', j, r) == HolderOf(w, j, r) {
      if j >= 0 && j != i { OthersStay(w, i, w', j, r); }
    }
    forall r | r in w'.inFlight ensures exists j :: HolderOf(w', j, r) {
      var j :| HolderOf(w, j, r);
      assert HolderOf(w', j, r);
    }
  }

  lemma ReservationsStep(w: World, a: Action)
    requires a.thread < |w.threads| && !w.threads[a.thread].pc.Done? && Reservations(w)
    ensures Reservations(Step(w, a))
  {
    hide *;
    StepKinds(w, a);
    var w' := Step(w, a);
    if Acquires(w, a.thread, w') {
      AcquireKeeps(w, a.thread, w');
    } else if Releases(w, a.thread, w') {
      ReleaseKeeps(w, a.thread, w');
    } else {
      ProceedKeeps(w, a.thread, w');
    }
  }

  /** Only a release with success returns `Submitted`, and only for a request not
    * recorded before. */
  lemma ReturnsStep(w: World, a: Action)
    requires a.thread < |w.threads| && !w.threads[a.thread].pc.Done? && Reservations(w) && Returns(w)
    ensures Returns(Step(w, a))
  {
    hide Step, Holds, Secure, NextPc;
    StepKinds(w, a);
    var w', i := Step(w, a), a.thread;
    var mine := w.threads[i].request;
    forall j, r | j != i ensures ReturnedSubmitted(w', j, r) == ReturnedSubmitted(w, j, r) {
      if j >= 0 { OthersStay(w, i, w', j, r); }
    }
    assert !ReturnedSubmitted(w, i, mine);
    if w.threads[i].pc == Releasing(Submitted) {
      ReleasingHolds(w, i);
      assert ReturnedSubmitted(w', i, mine);
      assert mine !in w.submitted;
      forall r | r in w'.submitted ensures exists j :: ReturnedSubmitted(w', j, r) {
        if r != mine {
          var j :| ReturnedSubmitted(w, j, r);
          assert ReturnedSubmitted(w', j, r);
        }
      }
    } else {
      assert w'.submitted == w.submitted && forall r :: !ReturnedSubmitted(w', i, r);
      forall r | r in w'.submitted ensures exists j :: ReturnedSubmitted(w', j, r) {
        var j :| ReturnedSubmitted(w, j, r);
        assert ReturnedSubmitted(w', j, r);
      }
    }
  }

  lemma ReleasingHolds(w: World, i: nat)
    requires i < |w.threads| && w.threads[i].pc.Releasing? && Reservations(w)
    ensures w.threads[i].request in w.inFlight && w.threads[i].request !in w.submitted
  {
    assert HolderOf(w, i, w.threads[i].request);
  }

  lemma SecuredIsHeld(w: World, i: nat, r: Request)
    requires Reservations(w) && SecuredBy(w, i, r)
    ensures HolderOf(w, i, r) && r in w.inFlight && r !in w.submitted
    ensures forall j :: SecuredBy(w, j, r) ==> j == i
  {
    assert HolderOf(w, i, r);
    forall j | SecuredBy(w, j, r) ensures j == i {
      assert HolderOf(w, j, r) && HolderOf(w, i, r);
    }
  }

  lemma OrdersStep(w: World, a: Action)
    requires a.thread < |w.threads| && !w.threads[a.thread].pc.Done? && Reservations(w) && Orders(w)
    ensures Orders(Step(w, a))
  {
    hide *;
    var w' := Step(w, a);
    StepKinds(w, a);
    forall r ensures w'.accepted[r] == w'.lost[r] + if Secured(w', r) then 1 else 0 {
      OrderOfRequest(w, a.thread, w', r);
    }
    OrdersFrom(w');
  }

  lemma OrdersFrom(w: World)
    requires forall r :: w.accepted[r] == w.lost[r] + if Secured(w, r) then 1 else 0
    ensures Orders(w)
  {
  }

  lemma OrderOfRequest(w: World, i: nat, w': World, r: Request)
    requires Acquires(w, i, w') || Releases(w, i, w') || Proceeds(w, i, w')
    requires Reservations(w) && Orders(w)
    ensures w'.accepted[r] == w'.lost[r] + if Secured(w', r) then 1 else 0
  {
    hide Reservations, Holds;
    var before, after := w.threads[i].pc, w'.threads[i].pc;
    assert w.accepted[r] == w.lost[r] + if Secured(w, r) then 1 else 0;
    if r != w.threads[i].request {
      SecuredElsewhere(w, i, w', r);
    } else {
      SecuredHere(w, i, w');
    }
  }

  /** Another request's standing is unchanged. */
  lemma SecuredElsewhere(w: World, i: nat, w': World, r: Request)
    requires Acquires(w, i, w') || Releases(w, i, w') || Proceeds(w, i, w')
    requires r != w.threads[i].request
    ensures Secured(w', r) == Secured(w, r)
  {
    hide Holds, Secure;
    forall j ensures SecuredBy(w', j, r) == SecuredBy(w, j, r) {
      if j >= 0 && j != i { OthersStay(w, i, w', j, r); }
    }
    assert (r in w'.submitted) == (r in w.submitted);
    if Secured(w, r) && r !in w.submitted {
      var j :| SecuredBy(w, j, r);
      assert SecuredBy(w', j, r);
    }
    if Secured(w', r) && r !in w'.submitted {
      var j :| SecuredBy(w', j, r);
      assert SecuredBy(w, j, r);
    }
  }

  /** The acting thread's own request: secured afterwards exactly when the thread
    * still secures it, or it stays or becomes recorded. */
  lemma SecuredHere(w: World, i: nat, w': World)
    requires Acquires(w, i, w') || Releases(w, i, w') || Proceeds(w, i, w')
    requires Reservations(w)
    ensures var r := w.threads[i].request;
            var (before, after) := (w.threads[i].pc, w'.threads[i].pc);
            && (Secure(before) ==> Secured(w, r))
            && (Holds(before) && !Secure(before) ==> !Secured(w, r))
            && (Secured(w', r) <==>
                  if Secure(before) && !Releases(w, i, w') then Secure(after)
                  else Secure(after) || Secured(w, r))
  {
    var r := w.threads[i].request;
    forall j | j != i ensures SecuredBy(w', j, r) == SecuredBy(w, j, r) {
      if j >= 0 { OthersStay(w, i, w', j, r); }
    }
    if Holds(w.threads[i].pc) {
      assert HolderOf(w, i, r);
      forall j ensures SecuredBy(w, j, r) ==> j == i {
        if SecuredBy(w, j, r) { SecuredIsHeld(w, j, r); }
      }
    }
    if Secure(w.threads[i].pc) { assert SecuredBy(w, i, r); }
    if Secure(w'.threads[i].pc) { assert SecuredBy(w', i, r); }
    if Secured(w, r) && r !in w.submitted {
      var j :| SecuredBy(w, j, r);
      assert j != i ==> SecuredBy(w', j, r);
    }
  }

  // ---- Every interleaving ------------------------------------------------------------

  ghost predicate Inv(w: World) {
    Reservations(w) && Returns(w) && Orders(w)
  }

  lemma {:induction false} RunKeepsInv(w: World, actions: seq<Action>, w': World)
    requires Inv(w) && Reaches(w, actions, w')
    ensures Inv(w')
    decreases |actions|
  {
    hide Reservations, Returns, Orders, Step;
    if actions != [] {
      ReservationsStep(w, actions[0]);
      ReturnsStep(w, actions[0]);
      OrdersStep(w, actions[0]);
      RunKeepsInv(Step(w, actions[0]), actions[1..], w');
    }
  }

  lemma InitialInv(w: World)
    requires Initial(w)
    ensures Inv(w)
  {
  }

  /** In every interleaving the two sets stay apart, a request is in flight exactly
    * while one thread holds it, and at most one call for it returns submitted. */
  lemma OneHolderOneSuccess(w: World, actions: seq<Action>, w': World, i: nat, j: nat)
    requires Initial(w) && Reaches(w, actions, w')
    requires i < j < |w'.threads| && w'.threads[i].request == w'.threads[j].request
    ensures w'.submitted !! w'.inFlight
    ensures !(Holds(w'.threads[i].pc) && Holds(w'.threads[j].pc))
    ensures !(w'.threads[i].pc == Done(Submitted) && w'.threads[j].pc == Done(Submitted))
  {
    hide Holds;
    InitialInv(w);
    RunKeepsInv(w, actions, w');
    var r := w'.threads[i].request;
    assert HolderOf(w', i, r) == Holds(w'.threads[i].pc) && HolderOf(w', j, r) == Holds(w'.threads[j].pc);
    assert ReturnedSubmitted(w', i, r) == (w'.threads[i].pc == Done(Submitted));
    assert ReturnedSubmitted(w', j, r) == (w'.threads[j].pc == Done(Submitted));
  }

  /** The broker takes at most one order for a request beyond those that the service
    * forgot because the broker or the publisher raised after an order was taken; if
    * neither ever does, at most one. */
  lemma BrokerOrdersBounded(w: World, actions: seq<Action>, w': World, r: Request)
    requires Initial(w) && Reaches(w, actions, w')
    ensures w'.lost[r] <= w'.accepted[r] <= w'.lost[r] + 1
    ensures w'.lost[r] == 0 ==> w'.accepted[r] <= 1
    ensures r in w'.submitted ==> w'.accepted[r] == w'.lost[r] + 1
  {
    hide Reservations, Returns;
    InitialInv(w);
    RunKeepsInv(w, actions, w');
  }

  /** When every call has returned, the orders taken for a request are exactly those
    * forgotten, plus one if a call for it returned submitted; so it was taken more
    * than once if and only if an order was forgotten and another was taken. */
  lemma OrdersWhenAllReturned(w: World, actions: seq<Action>, w': World, r: Request)
    requires Initial(w) && Reaches(w, actions, w')
    requires forall i :: 0 <= i < |w'.threads| ==> w'.threads[i].pc.Done?
    ensures w'.accepted[r] == w'.lost[r] + if r in w'.submitted then 1 else 0
    ensures r in w'.submitted <==> exists i :: ReturnedSubmitted(w', i, r)
    ensures w'.inFlight == {}
  {
    hide Orders;
    InitialInv(w);
    RunKeepsInv(w, actions, w');
    forall i, q ensures !HolderOf(w', i, q) && !SecuredBy(w', i, q) {
    }
    OrdersSay(w', r);
  }

  lemma OrdersSay(w: World, r: Request)
    requires Orders(w)
    ensures w.accepted[r] == w.lost[r] + if Secured(w, r) then 1 else 0
  {
  }

  // ---- An undisturbed call -----------------------------------------------------------

  /** How many steps a call still has at most. */
  function Distance(pc: Pc): nat {
    match pc
    case Planning => 8
    case Reserving => 7
    case Calling => 6
    case Announcing(_) => 5
    case AnnouncingFill => 4
    case Cancelling => 5
    case Rejecting(_) => 4
    case Failing => 3
    case Releasing(_) => 2
    case Done(_) => 0
  }

  function NextAction(i: nat, pc: Pc, plan: Result<TradePlan, RejectionCode>, answers: Answers): Action {
    var raises := match pc
      case Announcing(_) => answers.announcement
      case AnnouncingFill => answers.fill
      case Cancelling => answers.cancellation
      case Failing => answers.failure
      case _ => answers.rejection;
    Action(i, plan, answers.broker, raises)
  }

  lemma StepsShorten(w: World, a: Action)
    requires a.thread < |w.threads| && !w.threads[a.thread].pc.Done?
    ensures |Step(w, a).threads| == |w.threads|
    ensures Distance(Step(w, a).threads[a.thread].pc) < Distance(w.threads[a.thread].pc)
  {
  }

  /** The world after thread i has run to its end with nobody in between. */
  ghost function Alone(w: World, i: nat, plan: Result<TradePlan, RejectionCode>, answers: Answers): World
    requires i < |w.threads|
    decreases Distance(w.threads[i].pc)
  {
    if w.threads[i].pc.Done? then w
    else
      var a := NextAction(i, w.threads[i].pc, plan, answers);
      StepsShorten(w, a);
      Alone(Step(w, a), i, plan, answers)
  }

  /** Running alone is one of the interleavings. */
  lemma {:induction false} AloneIsReached(w: World, i: nat, plan: Result<TradePlan, RejectionCode>, answers: Answers)
    returns (actions: seq<Action>)
    requires i < |w.threads|
    ensures Reaches(w, actions, Alone(w, i, plan, answers))
    decreases Distance(w.threads[i].pc)
  {
    hide Step, Distance, Reaches;
    if w.threads[i].pc.Done? {
      actions := [];
      Stays(w);
    } else {
      var a := NextAction(i, w.threads[i].pc, plan, answers);
      StepsShorten(w, a);
      actions := AloneIsReached(Step(w, a), i, plan, answers);
      actions := Before(w, a, actions, Alone(w, i, plan, answers));
    }
  }

  /** What a call at a place where it holds the reservation comes to. */
  function LeadsTo(pc: Pc, answers: Answers): Outcome
    requires Holds(pc)
  {
    match pc
    case Calling => answers.Resolved()
    case Announcing(filled) => if answers.announcement || (filled && answers.fill) then answers.Failure() else Submitted
    case AnnouncingFill => if answers.fill then answers.Failure() else Submitted
    case Cancelling =>
      if answers.cancellation || answers.rejection then answers.Failure() else NotSubmitted(BrokerRejected)
    case Rejecting(code) => if answers.rejection then answers.Failure() else NotSubmitted(code)
    case Failing => answers.Failure()
    case Releasing(outcome) => outcome
  }

  lemma HeldStep(w: World, i: nat, plan: Result<TradePlan, RejectionCode>, answers: Answers)
    requires i < |w.threads| && Holds(w.threads[i].pc)
    ensures var pc := w.threads[i].pc;
            var w' := Step(w, NextAction(i, pc, plan, answers));
            && Moves(w, i, w')
            && (if pc.Releasing? then
                  && w'.threads[i].pc == Done(pc.outcome) && LeadsTo(pc, answers) == pc.outcome
                  && w'.inFlight == w.inFlight - {w.threads[i].request}
                  && w'.submitted == w.submitted + if pc.outcome == Submitted then {w.threads[i].request} else {}
                else
                  && Holds(w'.threads[i].pc) && LeadsTo(w'.threads[i].pc, answers) == LeadsTo(pc, answers)
                  && w'.inFlight == w.inFlight && w'.submitted == w.submitted)
  {
  }

  function Once(happens: bool, r: Request): multiset<Request> {
    if happens then multiset{r} else multiset{}
  }

  /** From here the broker is still to take the order. */
  predicate StillTakes(pc: Pc, answers: Answers) { pc.Calling? && answers.Take() }

  /** From here an order, taken already or still to be, will be forgotten. */
  predicate StillLoses(pc: Pc, answers: Answers)
    requires Holds(pc)
  {
    (StillTakes(pc, answers) || Secure(pc)) && LeadsTo(pc, answers) != Submitted
  }

  lemma HeldStepTakes(w: World, i: nat, plan: Result<TradePlan, RejectionCode>, answers: Answers)
    requires i < |w.threads| && Holds(w.threads[i].pc)
    ensures var pc, r := w.threads[i].pc, w.threads[i].request;
            var w' := Step(w, NextAction(i, pc, plan, answers));
            && w'.accepted == w.accepted + Once(StillTakes(pc, answers), r)
            && !StillTakes(w'.threads[i].pc, answers)
  {
    hide LeadsTo, Secure;
  }

  lemma HeldStepLoses(w: World, i: nat, plan: Result<TradePlan, RejectionCode>, answers: Answers)
    requires i < |w.threads| && Holds(w.threads[i].pc)
    ensures var pc, r := w.threads[i].pc, w.threads[i].request;
            var w' := Step(w, NextAction(i, pc, plan, answers));
            var after := w'.threads[i].pc;
            && w'.lost == w.lost + Once(LosesNow(pc, after, answers), r)
            && (pc.Releasing? ==> !LosesNow(pc, after, answers))
  {
    hide LeadsTo;
  }

  /** The step that forgets the order. */
  predicate LosesNow(before: Pc, after: Pc, answers: Answers) {
    (Secure(before) && after.Failing?) || TakenAndRaised(before, answers.broker)
  }

  /** What is still to be forgotten is forgotten now or stays to be. */
  lemma LosesNowOrLater(w: World, i: nat, plan: Result<TradePlan, RejectionCode>, answers: Answers)
    requires i < |w.threads| && Holds(w.threads[i].pc)
    ensures var pc := w.threads[i].pc;
            var after := NextPc(w, w.threads[i], NextAction(i, pc, plan, answers));
            && (pc.Releasing? ==> !StillLoses(pc, answers))
            && (Holds(after) ==>
                  && (StillLoses(pc, answers) <==> LosesNow(pc, after, answers) || StillLoses(after, answers))
                  && !(LosesNow(pc, after, answers) && StillLoses(after, answers)))
  {
  }

  lemma HeldStepOrders(w: World, i: nat, plan: Result<TradePlan, RejectionCode>, answers: Answers)
    requires i < |w.threads| && Holds(w.threads[i].pc)
    ensures var pc, r := w.threads[i].pc, w.threads[i].request;
            var w' := Step(w, NextAction(i, pc, plan, answers));
            var after := w'.threads[i].pc;
            && w'.accepted == w.accepted + Once(StillTakes(pc, answers), r)
            && !StillTakes(after, answers)
            && (pc.Releasing? ==> w'.lost == w.lost && !StillLoses(pc, answers))
            && (Holds(after) ==> w'.lost + Once(StillLoses(after, answers), r)
                                 == w.lost + Once(StillLoses(pc, answers), r))
  {
    hide Step, NextPc, NextAction, StillTakes, StillLoses, LosesNow;
    HeldStepTakes(w, i, plan, answers);
    HeldStepLoses(w, i, plan, answers);
    LosesNowOrLater(w, i, plan, answers);
    NextActionActs(i, w.threads[i].pc, plan, answers);
    StepPc(w, NextAction(i, w.threads[i].pc, plan, answers));
  }

  lemma StepPc(w: World, a: Action)
    requires a.thread < |w.threads| && !w.threads[a.thread].pc.Done?
    ensures |Step(w, a).threads| == |w.threads|
    ensures Step(w, a).threads[a.thread].pc == NextPc(w, w.threads[a.thread], a)
  {
    hide NextPc;
  }

  lemma {:induction false} AloneFromHeld(w: World, i: nat, plan: Result<TradePlan, RejectionCode>, answers: Answers)
    requires i < |w.threads| && Holds(w.threads[i].pc)
    ensures var outcome := LeadsTo(w.threads[i].pc, answers);
            var w' := Alone(w, i, plan, answers);
            && Moves(w, i, w') && w'.threads[i].pc == Done(outcome)
            && w'.inFlight == w.inFlight - {w.threads[i].request}
            && w'.submitted == w.submitted + (if outcome == Submitted then {w.threads[i].request} else {})
            && w'.accepted == w.accepted + Once(StillTakes(w.threads[i].pc, answers), w.threads[i].request)
            && w'.lost == w.lost + Once(StillLoses(w.threads[i].pc, answers), w.threads[i].request)
    decreases Distance(w.threads[i].pc)
  {
    hide Step, NextAction, Distance, NextPc, LeadsTo, StillTakes, StillLoses;
    NextActionActs(i, w.threads[i].pc, plan, answers);
    var w1 := Step(w, NextAction(i, w.threads[i].pc, plan, answers));
    HeldStep(w, i, plan, answers);
    HeldStepOrders(w, i, plan, answers);
    StepsShorten(w, NextAction(i, w.threads[i].pc, plan, answers));
    if !w.threads[i].pc.Releasing? {
      AloneFromHeld(w1, i, plan, answers);
    }
  }

  lemma NextActionActs(i: nat, pc: Pc, plan: Result<TradePlan, RejectionCode>, answers: Answers)
    ensures NextAction(i, pc, plan, answers).thread == i
  {
  }

  lemma PlanningStep(w: World, i: nat, plan: Result<TradePlan, RejectionCode>, answers: Answers)
    requires i < |w.threads| && w.threads[i].pc == Planning
    ensures var w' := Step(w, NextAction(i, Planning, plan, answers));
            && Moves(w, i, w') && SameOrders(w, w') && w'.inFlight == w.inFlight && w'.submitted == w.submitted
            && w'.threads[i].pc == if plan.Ok? then Reserving else Done(CallOutcome(false, plan, answers))
  {
  }

  lemma ReservingStep(w: World, i: nat, plan: Result<TradePlan, RejectionCode>, answers: Answers)
    requires i < |w.threads| && w.threads[i].pc == Reserving && plan.Ok?
    ensures var r := w.threads[i].request;
            var taken := r in w.submitted || r in w.inFlight;
            var w' := Step(w, NextAction(i, Reserving, plan, answers));
            && Moves(w, i, w') && SameOrders(w, w') && w'.submitted == w.submitted
            && w'.inFlight == (if taken then w.inFlight else w.inFlight + {r})
            && w'.threads[i].pc == if taken then Done(CallOutcome(true, plan, answers)) else Calling
  {
  }

  /** One call with nobody in between is `SubmitTradeService.Submit`: the same
    * outcome and the same two sets. The broker takes an order exactly when the
    * call reaches it and it does, and the order is forgotten exactly when the call
    * then does not return submitted. */
  lemma UndisturbedCall(w: World, i: nat, plan: Result<TradePlan, RejectionCode>, answers: Answers)
    requires i < |w.threads| && w.threads[i].pc == Planning
    ensures var r := w.threads[i].request;
            var known := r in w.submitted || r in w.inFlight;
            var outcome := CallOutcome(known, plan, answers);
            var takes := plan.Ok? && !known && answers.Take();
            var w' := Alone(w, i, plan, answers);
            && Moves(w, i, w') && w'.threads[i].pc == Done(outcome)
            && w'.inFlight == w.inFlight
            && w'.submitted == w.submitted + (if outcome == Submitted then {r} else {})
            && w'.accepted == w.accepted + Once(takes, r)
            && w'.lost == w.lost + Once(takes && outcome != Submitted, r)
  {
    hide Answers.Resolved, Answers.Take, Step, NextPc, NextAction, Distance, LeadsTo, StillTakes, StillLoses, Once;
    NothingOnce(w, w.threads[i].request);
    NextActionActs(i, Planning, plan, answers);
    NextActionActs(i, Reserving, plan, answers);
    PlanningStep(w, i, plan, answers);
    if plan.Ok? {
      var w1 := Step(w, NextAction(i, Planning, plan, answers));
      ReservingStep(w1, i, plan, answers);
      var w2 := Step(w1, NextAction(i, Reserving, plan, answers));
      if w2.threads[i].pc == Calling {
        CallingMeans(answers);
        AloneFromHeld(w2, i, plan, answers);
      }
    }
  }

  lemma NothingOnce(w: World, r: Request)
    ensures w.accepted + Once(false, r) == w.accepted && w.lost + Once(false, r) == w.lost
  {
  }

  lemma CallingMeans(answers: Answers)
    ensures Holds(Calling) && LeadsTo(Calling, answers) == answers.Resolved()
    ensures StillTakes(Calling, answers) == answers.Take()
    ensures StillLoses(Calling, answers) == (answers.Take() && answers.Resolved() != Submitted)
  {
  }

  // ---- A forgotten order ---------------------------------------------------------

  /** Whatever came before, the broker can take another order for a request from the
    * next call if and only if the request is neither recorded nor in flight. */
  lemma TakenAgainExactly(w: World, i: nat, plan: TradePlan)
    requires i < |w.threads| && w.threads[i].pc == Planning
    ensures var r := w.threads[i].request;
            r !in w.submitted && r !in w.inFlight <==>
              exists answers :: Alone(w, i, Ok(plan), answers).accepted[r] == w.accepted[r] + 1
  {
    hide Alone;
    var accepting := Answers(Accepts(false), false, false, false, false, false);
    forall answers {
      UndisturbedCall(w, i, Ok(plan), answers);
    }
    UndisturbedCall(w, i, Ok(plan), accepting);
  }

  lemma {:induction false} RunsCompose(w: World, first: seq<Action>, w1: World, second: seq<Action>, w2: World)
    requires Reaches(w, first, w1) && Reaches(w1, second, w2)
    ensures Reaches(w, first + second, w2)
    decreases |first|
  {
    hide Step;
    if first == [] {
      assert first + second == second;
    } else {
      assert (first + second)[1..] == first[1..] + second;
      RunsCompose(Step(w, first[0]), first[1..], w1, second, w2);
    }
  }

  /** Two calls for one request on a fresh service. Whatever raises after the broker
    * took the first order, the second call has it taken again. */
  lemma LostOrderIsTakenAgain(q: Request, plan: TradePlan, loser: Answers)
    returns (w: World, actions: seq<Action>, w': World)
    requires loser.Take() && !loser.Succeed()
    ensures Initial(w) && Reaches(w, actions, w')
    ensures w'.accepted[q] == 2 && w'.lost[q] == 1 && w'.submitted == {q}
  {
    hide Reaches, Alone;
    var accepting := Answers(Accepts(false), false, false, false, false, false);
    w := World([Thread(q, Planning), Thread(q, Planning)], {}, {}, multiset{}, multiset{});
    UndisturbedCall(w, 0, Ok(plan), loser);
    var w1 := Alone(w, 0, Ok(plan), loser);
    UndisturbedCall(w1, 1, Ok(plan), accepting);
    w' := Alone(w1, 1, Ok(plan), accepting);
    var first := AloneIsReached(w, 0, Ok(plan), loser);
    var second := AloneIsReached(w1, 1, Ok(plan), accepting);
    RunsCompose(w, first, w1, second, w');
    actions := first + second;
  }

  /** The two ways to lose an order: the publisher raises while announcing it, or,
    * with a publisher that never raises, the broker raises after taking it. */
  lemma WaysToLose(answers: Answers)
    ensures answers.Take() && !answers.Succeed() <==>
              || (answers.broker.Raises? && answers.broker.taken)
              || (answers.broker.Accepts? && (answers.announcement || (answers.broker.filled && answers.fill)))
  {
  }

  lemma Before(w: World, a: Action, rest: seq<Action>, w': World) returns (actions: seq<Action>)
    requires a.thread < |w.threads| && !w.threads[a.thread].pc.Done?
    requires Reaches(Step(w, a), rest, w')
    ensures Reaches(w, actions, w')
  {
    hide Step;
    actions := [a] + rest;
    assert ([a] + rest)[1..] == rest;
  }

  lemma Stays(w: World)
    ensures Reaches(w, [], w)
  {
  }
}
