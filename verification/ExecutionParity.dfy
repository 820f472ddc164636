/** The execution profile of the planner against the central risk manager
  * (volcanoes/risk/risk_manager.py, volcanoes/risk/trade_policies.py:131-163).
  * One side compares floor quotients, the other products.
  */
module ExecutionParity {
  import opened Wrappers
  import opened Money
  import opened TradePolicies
  import opened TradePlanner

  datatype Violation = Violation(code: Code, message: Reason)

  /** The first rule a trade breaks; None where `validate_trade` returns True. */
  function ValidateTrade(portfolio: PortfolioView, config: RiskConfig, trade: TradeRequest): Option<Violation> {
    var held := if trade.symbol in portfolio.holdings
                then portfolio.holdings[trade.symbol] as real * trade.price else 0.0;
    if portfolio.realizedPnl <= -(portfolio.startingCash * config.maxDailyLoss) then
      Some(Violation(MAX_DAILY_LOSS, DailyLossReached))
    else if trade.Cost() > portfolio.buyingPower then
      Some(Violation(INSUFFICIENT_BUYING_POWER, ExceedsBuyingPower))
    else if held + trade.Cost() > portfolio.equity * config.maxPositionSize then
      Some(Violation(MAX_POSITION_SIZE, ExceedsPositionSize))
    else if trade.symbol !in portfolio.holdings && portfolio.openPositions >= config.maxOpenPositions then
      Some(Violation(MAX_OPEN_POSITIONS, OpenPositionsExceeded))
    else if portfolio.investedValue + trade.Cost() > portfolio.equity * config.maxPortfolioExposure then
      Some(Violation(MAX_PORTFOLIO_EXPOSURE, ExceedsExposure))
    else None
  }

  /** The first decision of the list that rejects. */
  function FirstRejection(policies: seq<Policy>, c: Context): Option<Decision>
    requires c.intent.Valid()
  {
    if policies == [] then None
    else
      var d := Evaluate(policies[0], c);
      if !d.approved then Some(d) else FirstRejection(policies[1..], c)
  }

  predicate NeverCaps(p: Policy) {
    match p
    case BuyingPower(mode) => mode == Reject
    case MaximumPositionSize(_, mode, _) => mode == Reject
    case PortfolioExposure(_, mode) => mode == Reject
    case _ => true
  }

  lemma NoLimit(p: Policy, c: Context)
    requires c.intent.Valid() && NeverCaps(p)
    ensures Evaluate(p, c).maximumQuantity == None
  {
    hide WholeUnits;
  }

  /** A list that stops at its first rejection and never caps concludes with that
    * rejection, at the sized quantity. */
  lemma {:induction false} StopsAtFirst(policies: seq<Policy>, c: Context, quantity: nat)
    requires c.intent.Valid()
    requires forall p :: p in policies ==> NeverCaps(p)
    ensures var ds := Decisions(policies, c, false);
            var first := FirstRejection(policies, c);
            && Rejections(ds) == (if first.Some? then [first.value] else [])
            && Capped(quantity, ds) == quantity
  {
    hide Evaluate, NeverCaps;
    if policies != [] {
      NoLimit(policies[0], c);
      StopsAtFirst(policies[1..], c, quantity);
    }
  }

  function AsViolation(d: Option<Decision>): Option<Violation> {
    if d.None? then None else Some(Violation(d.value.code, d.value.explanation))
  }

  /** A reject-mode limit on at least one share is the comparison of its cost. */
  lemma LimitIsCost(capital: real, c: Context, code: Code, limitCode: Code, rejection: Reason)
    requires c.intent.Valid() && c.quantity >= 1
    ensures var price := c.intent.entryPrice;
            var cost := c.quantity as real * price;
            && Limited(WholeUnits(capital, price), c.quantity, Reject, code, limitCode, rejection).approved
               == (cost <= capital)
            && Limited(WholeUnits(Max(0.0, capital), price), c.quantity, Reject, code, limitCode, rejection).approved
               == (cost <= capital)
  {
    var price := c.intent.entryPrice;
    WholeUnitsFit(capital, price, c.quantity);
    WholeUnitsFit(Max(0.0, capital), price, c.quantity);
    ScaleStrict(0.0, c.quantity as real, price);
  }

  /** What each of the five policies decides, as a comparison of amounts. */
  lemma DefaultVerdicts(config: RiskConfig, c: Context)
    requires c.intent.Valid() && c.quantity >= 1
    ensures var ps := ExecutionDefaults(config).policies;
            var p := c.portfolio;
            var cost := c.quantity as real * c.intent.entryPrice;
            && (Evaluate(ps[0], c).approved <==> p.realizedPnl > -(p.startingCash * config.maxDailyLoss))
            && (Evaluate(ps[1], c).approved <==> cost <= p.buyingPower)
            && (Evaluate(ps[2], c).approved <==> cost <= PositionRoom(p, c.intent, config.maxPositionSize, true))
            && (Evaluate(ps[3], c).approved
                <==> c.intent.symbol in p.holdings || p.openPositions < config.maxOpenPositions)
            && (Evaluate(ps[4], c).approved <==> cost <= ExposureRoom(p, config.maxPortfolioExposure))
  {
    hide WholeUnits, PositionRoom, ExposureRoom;
    LimitIsCost(c.portfolio.buyingPower, c, INSUFFICIENT_BUYING_POWER, BUYING_POWER_LIMIT, ExceedsBuyingPower);
    LimitIsCost(PositionRoom(c.portfolio, c.intent, config.maxPositionSize, true), c,
                MAX_POSITION_SIZE, MAX_POSITION_SIZE_LIMIT, ExceedsPositionSize);
    LimitIsCost(ExposureRoom(c.portfolio, config.maxPortfolioExposure), c,
                MAX_PORTFOLIO_EXPOSURE, MAX_PORTFOLIO_EXPOSURE_LIMIT, ExceedsExposure);
  }

  lemma DefaultRejections(config: RiskConfig, c: Context)
    requires c.intent.Valid()
    ensures var ps := ExecutionDefaults(config).policies;
            && Rejects(Evaluate(ps[0], c), MAX_DAILY_LOSS, DailyLossReached)
            && Rejects(Evaluate(ps[1], c), INSUFFICIENT_BUYING_POWER, ExceedsBuyingPower)
            && Rejects(Evaluate(ps[2], c), MAX_POSITION_SIZE, ExceedsPositionSize)
            && Rejects(Evaluate(ps[3], c), MAX_OPEN_POSITIONS, OpenPositionsExceeded)
            && Rejects(Evaluate(ps[4], c), MAX_PORTFOLIO_EXPOSURE, ExceedsExposure)
  {
    hide WholeUnits, PositionRoom, ExposureRoom;
  }

  predicate Rejects(d: Decision, code: Code, reason: Reason) {
    !d.approved ==> d.code == code && d.explanation == reason
  }

  /** The five policies reject exactly where, and as, `ValidateTrade` does. */
  lemma SameFirstViolation(config: RiskConfig, c: Context)
    requires c.intent.Valid() && c.quantity >= 1
    ensures AsViolation(FirstRejection(ExecutionDefaults(config).policies, c))
            == ValidateTrade(c.portfolio, config, TradeRequest(c.intent.symbol, c.quantity, c.intent.entryPrice))
  {
    hide Evaluate, FirstRejection;
    DefaultVerdicts(config, c);
    DefaultRejections(config, c);
    FirstOfFive(ExecutionDefaults(config).policies, c);
  }

  lemma FirstOfFive(ps: seq<Policy>, c: Context)
    requires c.intent.Valid() && |ps| == 5
    ensures FirstRejection(ps, c) ==
            if !Evaluate(ps[0], c).approved then Some(Evaluate(ps[0], c))
            else if !Evaluate(ps[1], c).approved then Some(Evaluate(ps[1], c))
            else if !Evaluate(ps[2], c).approved then Some(Evaluate(ps[2], c))
            else if !Evaluate(ps[3], c).approved then Some(Evaluate(ps[3], c))
            else if !Evaluate(ps[4], c).approved then Some(Evaluate(ps[4], c))
            else None
  {
    hide Evaluate;
    FirstFrom(ps, 0, c);
    FirstFrom(ps, 1, c);
    FirstFrom(ps, 2, c);
    FirstFrom(ps, 3, c);
    FirstFrom(ps, 4, c);
    assert ps[0..] == ps && ps[5..] == [];
  }

  lemma FirstFrom(ps: seq<Policy>, i: nat, c: Context)
    requires c.intent.Valid() && i < |ps|
    ensures FirstRejection(ps[i..], c)
            == if !Evaluate(ps[i], c).approved then Some(Evaluate(ps[i], c)) else FirstRejection(ps[i + 1..], c)
  {
    hide Evaluate;
    assert ps[i..][1..] == ps[i + 1..];
  }

  /** Planning under the execution profile, for any view and any intent: with at
    * least one share sized it is approved exactly when `ValidateTrade` finds
    * nothing, and otherwise gives the code and message of the first violation;
    * with no share it is refused without a code. */
  lemma PlannerMatchesRiskManager(portfolio: PortfolioView, config: RiskConfig, intent: TradeIntent,
                                  target: Option<real>, openOrders: set<string>)
    requires intent.Valid() && portfolio.equity > 0.0 && 0.0 < config.maxRiskPerTrade <= 1.0
    ensures var r := Planned(ExecutionDefaults(config), config.maxRiskPerTrade, portfolio, intent, target, openOrders);
            var quantity := RiskQuantity(portfolio.equity, intent, config.maxRiskPerTrade);
            && r.Ok?
            && var plan := r.value;
               var trade := TradeRequest(intent.symbol, quantity, intent.entryPrice);
               var violation := ValidateTrade(portfolio, config, trade);
               if quantity == 0 then !plan.approved && plan.riskCode == None && plan.request == None
               else if violation.None? then plan.approved && plan.request == Some(trade)
               else !plan.approved && plan.riskCode == Some(violation.value.code)
                    && plan.reason == violation.value.message && plan.reasons == [violation.value.message]
  {
    hide RiskQuantity, Evaluate, ValidateTrade, FirstRejection, Decisions, Rejections, Capped;
    var ps := ExecutionDefaults(config).policies;
    var quantity := RiskQuantity(portfolio.equity, intent, config.maxRiskPerTrade);
    if quantity > 0 {
      var c := Context(portfolio, intent, quantity, target, openOrders);
      StopsAtFirst(ps, c, quantity);
      SameFirstViolation(config, c);
      if FirstRejection(ps, c).Some? {
        assert Explanations([FirstRejection(ps, c).value]) == [FirstRejection(ps, c).value.explanation];
      }
    }
  }
}
