/** Sizing and policy orchestration (volcanoes/execution/trade_planner.py,
  * volcanoes/sizing/position_sizer.py).
  */
module TradePlanner {
  import opened Wrappers
  import opened Money
  import opened TradePolicies

  datatype TradeRequest = TradeRequest(symbol: string, quantity: nat, price: real) {
    function Cost(): real { quantity as real * price }
  }

  datatype Sizing = Sizing(quantity: nat, dollarRisk: real, positionValue: real)

  datatype TradePlan = TradePlan(
    approved: bool,
    reason: Reason,
    sizing: Sizing,
    request: Option<TradeRequest>,
    riskCode: Option<Code>,
    reasons: seq<Reason>,
    decisions: seq<Decision>)

  /** The ValueErrors a sizing request raises. */
  datatype PlanError = EquityNotPositive | RiskNotPositive | RiskAboveOne

  function Sized(intent: TradeIntent, quantity: nat): Sizing
    requires intent.Valid()
  {
    if quantity == 0 then Sizing(0, 0.0, 0.0)
    else Sizing(quantity, intent.RiskPerShare() * quantity as real, intent.entryPrice * quantity as real)
  }

  /** Fixed-fractional size: whole units whose risk stays within the allowance. */
  function SizePosition(equity: real, intent: TradeIntent, maximumRisk: real): Result<Sizing, PlanError>
    requires intent.Valid()
  {
    if equity <= 0.0 then Err(EquityNotPositive)
    else if maximumRisk <= 0.0 then Err(RiskNotPositive)
    else if maximumRisk > 1.0 then Err(RiskAboveOne)
    else Ok(Sized(intent, RiskQuantity(equity, intent, maximumRisk)))
  }

  function RiskQuantity(equity: real, intent: TradeIntent, maximumRisk: real): nat
    requires intent.Valid() && equity > 0.0 && maximumRisk > 0.0
  {
    QuotientNotNegative(equity * maximumRisk, intent.RiskPerShare());
    FloorDiv(equity * maximumRisk, intent.RiskPerShare())
  }

  /** The decisions the policy loop makes: all of them, or up to and including the
    * first rejection. */
  function Decisions(policies: seq<Policy>, c: Context, collectAll: bool): seq<Decision>
    requires c.intent.Valid()
  {
    if policies == [] then []
    else
      var d := Evaluate(policies[0], c);
      if !d.approved && !collectAll then [d] else [d] + Decisions(policies[1..], c, collectAll)
  }

  function Rejections(ds: seq<Decision>): seq<Decision> {
    if ds == [] then [] else (if ds[0].approved then [] else [ds[0]]) + Rejections(ds[1..])
  }

  function Explanations(ds: seq<Decision>): seq<Reason> {
    if ds == [] then [] else [ds[0].explanation] + Explanations(ds[1..])
  }

  /** The sized quantity lowered to every limit among the decisions. */
  function Capped(quantity: nat, ds: seq<Decision>): nat {
    if ds == [] then quantity
    else
      var m := ds[0].maximumQuantity;
      Capped(if m.Some? && m.value < quantity then m.value else quantity, ds[1..])
  }

  /** The plan that follows from a sized quantity and the decisions made on it. */
  function Concluded(policySet: PolicySet, intent: TradeIntent, quantity: nat, ds: seq<Decision>): TradePlan
    requires intent.Valid()
  {
    var planned := Capped(quantity, ds);
    var rejections := Rejections(ds);
    var request := if planned > 0 then Some(TradeRequest(intent.symbol, planned, intent.entryPrice)) else None;
    var reasons := Explanations(rejections) + if planned == 0 then [policySet.zeroQuantityReason] else [];
    if reasons != [] then
      TradePlan(false, reasons[0], Sized(intent, planned), request,
                if rejections != [] then Some(rejections[0].code) else None, reasons, ds)
    else TradePlan(true, AllRulesPassed, Sized(intent, planned), request, None, [], ds)
  }

  function Planned(policySet: PolicySet, maximumRisk: real, portfolio: PortfolioView, intent: TradeIntent,
                   target: Option<real>, openOrders: set<string>): Result<TradePlan, PlanError>
    requires intent.Valid()
  {
    var sized := SizePosition(portfolio.equity, intent, maximumRisk);
    if sized.Err? then Err(sized.error)
    else if sized.value.quantity == 0 && !policySet.evaluateWhenZero then
      Ok(TradePlan(false, InsufficientRiskAllowance, sized.value, None, None, [InsufficientRiskAllowance], []))
    else
      var c := Context(portfolio, intent, sized.value.quantity, target, openOrders);
      Ok(Concluded(policySet, intent, sized.value.quantity, Decisions(policySet.policies, c, policySet.collectAll)))
  }

  method Plan(policySet: PolicySet, maximumRisk: real, portfolio: PortfolioView, intent: TradeIntent,
              target: Option<real>, openOrders: set<string>) returns (r: Result<TradePlan, PlanError>)
    requires intent.Valid()
    ensures r == Planned(policySet, maximumRisk, portfolio, intent, target, openOrders)
    ensures PlanByLaw(policySet, maximumRisk, portfolio, intent, target, openOrders, r)
  {
    hide PlanByLaw;
    PlansByLaw(policySet, maximumRisk, portfolio, intent, target, openOrders);
    var sized := SizePosition(portfolio.equity, intent, maximumRisk);
    if sized.Err? {
      return Err(sized.error);
    }
    var quantity := sized.value.quantity;
    if quantity == 0 && !policySet.evaluateWhenZero {
      return Ok(TradePlan(false, InsufficientRiskAllowance, sized.value, None, None, [InsufficientRiskAllowance], []));
    }
    var decisions, rejections, limits :=
      ApplyPolicies(policySet, Context(portfolio, intent, quantity, target, openOrders));
    var plan := Conclude(policySet, intent, quantity, decisions, rejections, limits);
    r := Ok(plan);
  }

  /** The policy loop: every decision, the rejections among them and the limits. */
  method ApplyPolicies(policySet: PolicySet, c: Context)
    returns (decisions: seq<Decision>, rejections: seq<Decision>, limits: seq<nat>)
    requires c.intent.Valid()
    ensures decisions == Decisions(policySet.policies, c, policySet.collectAll)
    ensures rejections == Rejections(decisions)
    ensures MinOf(c.quantity, limits) == Capped(c.quantity, decisions)
  {
    hide Evaluate, Decisions, Rejections, Capped, MinOf;
    EmptyLists(c.quantity, c, policySet.collectAll);
    decisions, rejections, limits := [], [], [];
    assert policySet.policies[0..] == policySet.policies;
    var i := 0;
    while i < |policySet.policies|
      invariant 0 <= i <= |policySet.policies|
      invariant Decisions(policySet.policies, c, policySet.collectAll)
                == decisions + Decisions(policySet.policies[i..], c, policySet.collectAll)
      invariant rejections == Rejections(decisions)
      invariant MinOf(c.quantity, limits) == Capped(c.quantity, decisions)
    {
      var decision := Evaluate(policySet.policies[i], c);
      DecisionsFrom(policySet.policies, i, c, policySet.collectAll);
      assert decisions + ([decision] + Decisions(policySet.policies[i + 1..], c, policySet.collectAll))
             == (decisions + [decision]) + Decisions(policySet.policies[i + 1..], c, policySet.collectAll);
      RejectionsAppend(decisions, decision);
      CappedAppend(c.quantity, decisions, decision);
      decisions := decisions + [decision];
      if decision.maximumQuantity.Some? {
        MinOfAppend(c.quantity, limits, decision.maximumQuantity.value);
        limits := limits + [decision.maximumQuantity.value];
      }
      i := i + 1;
      if !decision.approved {
        rejections := rejections + [decision];
        if !policySet.collectAll {
          return;
        }
      }
    }
    assert policySet.policies[i..] == [];
  }

  method Conclude(policySet: PolicySet, intent: TradeIntent, quantity: nat, decisions: seq<Decision>,
                  rejections: seq<Decision>, limits: seq<nat>) returns (plan: TradePlan)
    requires intent.Valid()
    requires rejections == Rejections(decisions) && MinOf(quantity, limits) == Capped(quantity, decisions)
    ensures plan == Concluded(policySet, intent, quantity, decisions)
    ensures OrdersItsSize(plan, intent) && LeastLimit(plan.sizing.quantity, quantity, decisions)
    ensures AnswersFor(policySet, plan)
  {
    hide Rejections, Capped, MinOf, Sized, OrdersItsSize, LeastLimit, AnswersFor;
    ConcludesByLaw(policySet, intent, quantity, decisions);
    var planned := MinOf(quantity, limits);
    var sizing := Sized(intent, planned);
    var request := if planned > 0 then Some(TradeRequest(intent.symbol, planned, intent.entryPrice)) else None;
    if |rejections| > 0 || planned == 0 {
      var reasons := Explanations(rejections);
      if planned == 0 {
        reasons := reasons + [policySet.zeroQuantityReason];
      }
      return TradePlan(false, reasons[0], sizing, request,
                       if rejections != [] then Some(rejections[0].code) else None, reasons, decisions);
    }
    plan := TradePlan(true, AllRulesPassed, sizing, request, None, [], decisions);
  }

  lemma DecisionsFrom(policies: seq<Policy>, i: nat, c: Context, collectAll: bool)
    requires c.intent.Valid() && i < |policies|
    ensures var d := Evaluate(policies[i], c);
            Decisions(policies[i..], c, collectAll)
            == if !d.approved && !collectAll then [d] else [d] + Decisions(policies[i + 1..], c, collectAll)
  {
    assert policies[i..][1..] == policies[i + 1..];
  }

  lemma EmptyLists(quantity: nat, c: Context, collectAll: bool)
    requires c.intent.Valid()
    ensures Decisions([], c, collectAll) == [] && Rejections([]) == []
    ensures MinOf(quantity, []) == quantity == Capped(quantity, [])
  {
  }

  function MinOf(quantity: nat, limits: seq<nat>): nat {
    if limits == [] then quantity
    else MinOf(if limits[0] < quantity then limits[0] else quantity, limits[1..])
  }

  lemma {:induction false} MinOfAppend(quantity: nat, limits: seq<nat>, m: nat)
    ensures MinOf(quantity, limits + [m]) == if m < MinOf(quantity, limits) then m else MinOf(quantity, limits)
  {
    if limits != [] {
      assert (limits + [m])[1..] == limits[1..] + [m];
      MinOfAppend(if limits[0] < quantity then limits[0] else quantity, limits[1..], m);
    }
  }

  lemma {:induction false} RejectionsAppend(ds: seq<Decision>, d: Decision)
    ensures Rejections(ds + [d]) == Rejections(ds) + if d.approved then [] else [d]
  {
    if ds != [] {
      assert (ds + [d])[1..] == ds[1..] + [d];
      RejectionsAppend(ds[1..], d);
    }
  }

  lemma {:induction false} CappedAppend(quantity: nat, ds: seq<Decision>, d: Decision)
    ensures var before := Capped(quantity, ds);
            Capped(quantity, ds + [d])
            == if d.maximumQuantity.Some? && d.maximumQuantity.value < before then d.maximumQuantity.value else before
  {
    if ds != [] {
      assert (ds + [d])[1..] == ds[1..] + [d];
      var m := ds[0].maximumQuantity;
      CappedAppend(if m.Some? && m.value < quantity then m.value else quantity, ds[1..], d);
    }
  }

  // ---- What a plan says, without the way it is computed --------------------------

  /** A plan orders exactly what it sizes: a request exactly when the size is not
    * zero, for the intent's symbol at the intent's price. */
  predicate OrdersItsSize(plan: TradePlan, intent: TradeIntent)
    requires intent.Valid()
  {
    var quantity := plan.sizing.quantity;
    && (plan.request.Some? <==> quantity > 0)
    && (plan.request.Some? ==>
          && plan.request.value.symbol == intent.symbol
          && plan.request.value.price == intent.entryPrice
          && plan.request.value.quantity == quantity)
    && plan.sizing.positionValue == quantity as real * intent.entryPrice
    && plan.sizing.dollarRisk == quantity as real * intent.RiskPerShare()
  }

  /** The policies were asked in order, each once, about the sized quantity: all of
    * them, or up to the first that rejects. */
  ghost predicate AskedInOrder(policies: seq<Policy>, c: Context, collectAll: bool, ds: seq<Decision>)
    requires c.intent.Valid()
  {
    && |ds| <= |policies|
    && (forall i :: 0 <= i < |ds| ==> ds[i] == Evaluate(policies[i], c))
    && (forall i :: 0 <= i < |ds| - 1 ==> collectAll || ds[i].approved)
    && (|ds| < |policies| ==> !collectAll && ds != [] && !ds[|ds| - 1].approved)
  }

  /** The least of a quantity and the limits among the decisions. */
  ghost predicate LeastLimit(least: nat, quantity: nat, ds: seq<Decision>) {
    && least <= quantity
    && (forall d :: d in ds && d.maximumQuantity.Some? ==> least <= d.maximumQuantity.value)
    && (least == quantity || exists d :: d in ds && d.maximumQuantity == Some(least))
  }

  /** Decision i is the first that rejects. */
  ghost predicate FirstToReject(ds: seq<Decision>, i: int) {
    0 <= i < |ds| && !ds[i].approved && forall j :: 0 <= j < i ==> ds[j].approved
  }

  ghost predicate AllApprove(ds: seq<Decision>) { forall i :: 0 <= i < |ds| ==> ds[i].approved }

  /** Approval and its reasons: approved exactly when nobody rejects and something is
    * left to order; otherwise the first rejection names code and reason, and the
    * zero-quantity reason stands where nobody rejects. */
  ghost predicate AnswersFor(policySet: PolicySet, plan: TradePlan) {
    && (plan.approved <==> AllApprove(plan.decisions) && plan.sizing.quantity > 0)
    && (plan.approved <==> plan.reasons == [])
    && (plan.approved ==> plan.reason == AllRulesPassed && plan.riskCode == None)
    && (!plan.approved ==> plan.reason == plan.reasons[0])
    && (!plan.approved && AllApprove(plan.decisions) ==>
          plan.riskCode == None && plan.reasons == [policySet.zeroQuantityReason])
    && (forall i :: FirstToReject(plan.decisions, i) ==>
                      plan.riskCode == Some(plan.decisions[i].code) && plan.reason == plan.decisions[i].explanation)
    && (forall d :: d in plan.decisions && !d.approved ==> d.explanation in plan.reasons)
    && (forall r :: r in plan.reasons ==>
                      || (exists d :: d in plan.decisions && !d.approved && d.explanation == r)
                      || (plan.sizing.quantity == 0 && r == policySet.zeroQuantityReason))
    && (plan.sizing.quantity == 0 ==>
          plan.reasons != [] && plan.reasons[|plan.reasons| - 1] == policySet.zeroQuantityReason)
  }

  ghost predicate PlanByLaw(policySet: PolicySet, maximumRisk: real, portfolio: PortfolioView, intent: TradeIntent,
                            target: Option<real>, openOrders: set<string>, r: Result<TradePlan, PlanError>)
    requires intent.Valid()
  {
    if portfolio.equity <= 0.0 then r == Err(EquityNotPositive)
    else if maximumRisk <= 0.0 then r == Err(RiskNotPositive)
    else if maximumRisk > 1.0 then r == Err(RiskAboveOne)
    else
      && r.Ok? && OrdersItsSize(r.value, intent)
      && var plan, sized := r.value, RiskQuantity(portfolio.equity, intent, maximumRisk);
         if sized == 0 && !policySet.evaluateWhenZero then
           && !plan.approved && plan.sizing.quantity == 0 && plan.decisions == [] && plan.riskCode == None
           && plan.reasons == [InsufficientRiskAllowance] && plan.reason == InsufficientRiskAllowance
         else
           && AskedInOrder(policySet.policies, Context(portfolio, intent, sized, target, openOrders),
                           policySet.collectAll, plan.decisions)
           && LeastLimit(plan.sizing.quantity, sized, plan.decisions)
           && AnswersFor(policySet, plan)
  }

  /** Whatever the policies, the view and the intent: a plan is the least of the
    * risk size and the limits, orders exactly that, and is approved or explained by
    * the policies' own answers. */
  lemma PlansByLaw(policySet: PolicySet, maximumRisk: real, portfolio: PortfolioView, intent: TradeIntent,
                   target: Option<real>, openOrders: set<string>)
    requires intent.Valid()
    ensures PlanByLaw(policySet, maximumRisk, portfolio, intent, target, openOrders,
                      Planned(policySet, maximumRisk, portfolio, intent, target, openOrders))
  {
    hide Concluded, Decisions, RiskQuantity, OrdersItsSize, AskedInOrder, LeastLimit, AnswersFor;
    if portfolio.equity > 0.0 && 0.0 < maximumRisk <= 1.0 {
      var sized := RiskQuantity(portfolio.equity, intent, maximumRisk);
      if sized == 0 && !policySet.evaluateWhenZero {
        NothingOrdered(intent);
      } else {
        var c := Context(portfolio, intent, sized, target, openOrders);
        AsksInOrder(policySet.policies, c, policySet.collectAll);
        ConcludesByLaw(policySet, intent, sized, Decisions(policySet.policies, c, policySet.collectAll));
      }
    }
  }

  lemma NothingOrdered(intent: TradeIntent)
    requires intent.Valid()
    ensures OrdersItsSize(TradePlan(false, InsufficientRiskAllowance, Sized(intent, 0), None, None,
                                    [InsufficientRiskAllowance], []), intent)
  {
  }

  lemma {:induction false} AsksInOrder(policies: seq<Policy>, c: Context, collectAll: bool)
    requires c.intent.Valid()
    ensures AskedInOrder(policies, c, collectAll, Decisions(policies, c, collectAll))
  {
    hide Evaluate;
    if policies != [] {
      AsksInOrder(policies[1..], c, collectAll);
      var rest := Decisions(policies[1..], c, collectAll);
      assert forall i :: 0 <= i < |rest| ==> rest[i] == Evaluate(policies[1..][i], c);
    }
  }

  lemma {:induction false} CappedIsLeast(quantity: nat, ds: seq<Decision>)
    ensures LeastLimit(Capped(quantity, ds), quantity, ds)
  {
    if ds != [] {
      var m := ds[0].maximumQuantity;
      CappedIsLeast(if m.Some? && m.value < quantity then m.value else quantity, ds[1..]);
      assert ds == [ds[0]] + ds[1..];
      assert ds[0] in ds;
    }
  }

  /** The rejections are the decisions that reject, the first one first. */
  lemma {:induction false} RejectionsAre(ds: seq<Decision>)
    ensures forall d :: d in Rejections(ds) <==> d in ds && !d.approved
    ensures Rejections(ds) == [] <==> AllApprove(ds)
    ensures forall i :: FirstToReject(ds, i) ==> Rejections(ds) != [] && Rejections(ds)[0] == ds[i]
  {
    if ds != [] {
      RejectionsAre(ds[1..]);
      assert ds == [ds[0]] + ds[1..];
      forall i | FirstToReject(ds, i) ensures Rejections(ds) != [] && Rejections(ds)[0] == ds[i] {
        if i > 0 {
          FirstInRest(ds, i);
        }
      }
      AllApproveSplit(ds);
    }
  }

  lemma AllApproveSplit(ds: seq<Decision>)
    requires ds != []
    ensures AllApprove(ds) <==> ds[0].approved && AllApprove(ds[1..])
  {
    assert ds == [ds[0]] + ds[1..];
  }

  lemma FirstInRest(ds: seq<Decision>, i: int)
    requires FirstToReject(ds, i) && i > 0
    ensures FirstToReject(ds[1..], i - 1) && ds[0].approved && ds[1..][i - 1] == ds[i]
  {
    assert forall j :: 0 <= j < i - 1 ==> ds[1..][j] == ds[j + 1];
  }

  lemma {:induction false} ExplanationsAre(ds: seq<Decision>)
    ensures |Explanations(ds)| == |ds|
    ensures forall i :: 0 <= i < |ds| ==> Explanations(ds)[i] == ds[i].explanation
  {
    if ds != [] {
      ExplanationsAre(ds[1..]);
    }
  }

  lemma ConcludesByLaw(policySet: PolicySet, intent: TradeIntent, quantity: nat, ds: seq<Decision>)
    requires intent.Valid()
    ensures var plan := Concluded(policySet, intent, quantity, ds);
            && OrdersItsSize(plan, intent) && plan.decisions == ds
            && LeastLimit(plan.sizing.quantity, quantity, ds) && AnswersFor(policySet, plan)
  {
    hide Capped, Rejections, Explanations, AnswersFor, LeastLimit;
    CappedIsLeast(quantity, ds);
    ConcludedAnswers(policySet, intent, quantity, ds);
  }

  lemma ConcludedAnswers(policySet: PolicySet, intent: TradeIntent, quantity: nat, ds: seq<Decision>)
    requires intent.Valid()
    ensures AnswersFor(policySet, Concluded(policySet, intent, quantity, ds))
  {
    hide Capped, Rejections, Explanations;
    var rejections := Rejections(ds);
    RejectionsAre(ds);
    ExplanationsAre(rejections);
    var plan := Concluded(policySet, intent, quantity, ds);
    forall r | r in plan.reasons
      ensures || (exists d :: d in ds && !d.approved && d.explanation == r)
              || (plan.sizing.quantity == 0 && r == policySet.zeroQuantityReason)
    {
      var i :| 0 <= i < |plan.reasons| && plan.reasons[i] == r;
      if i < |rejections| {
        assert rejections[i] in rejections;
      }
    }
    forall d | d in ds && !d.approved ensures d.explanation in plan.reasons {
      var i :| 0 <= i < |rejections| && rejections[i] == d;
      assert plan.reasons[i] == d.explanation;
    }
  }

  /** The risk size is the greatest number of shares whose risk stays within the
    * allowance. */
  lemma RiskQuantityIsGreatest(equity: real, intent: TradeIntent, maximumRisk: real, n: nat)
    requires intent.Valid() && equity > 0.0 && maximumRisk > 0.0
    ensures n <= RiskQuantity(equity, intent, maximumRisk)
            <==> n as real * intent.RiskPerShare() <= equity * maximumRisk
  {
    FloorQuotient(equity * maximumRisk, intent.RiskPerShare(), n);
  }
}
