/** Plan, then submit (volcanoes/execution/execution_pipeline.py), on the account
  * behind the paper broker: what every run of intents keeps.
  */
module Pipeline {
  import opened Wrappers
  import opened Money
  import opened Accounts
  import opened TradePolicies
  import opened TradePlanner
  import opened ExecutionParity
  import opened PortfolioModel

  datatype ExecuteError =
    | Planning(error: PlanError)
    | ApprovedWithoutRequest
    | RequestMismatch
    | InvalidOrder

  /** What `execute` returns or raises. */
  datatype Execution =
    | Raised(error: ExecuteError)
    | Refused(code: Code, message: Reason)
    | NotSubmitted(reason: Reason)
    | Submitted(side: Side, status: OrderStatus, quantity: nat)

  function AsTrade(side: Side, request: TradeRequest): Trade {
    if side == Buy then BuyTrade(request.symbol, request.quantity, request.price)
    else SellTrade(request.symbol, request.quantity, request.price)
  }

  /** What the order's constructor accepts (volcanoes/domain/order.py:35-54). */
  predicate IsOrder(request: TradeRequest) {
    request.symbol != "" && request.quantity > 0 && request.price > 0.0
  }

  /** The account and the outcome after one plan is submitted. */
  function SubmittedPlan(a: Account, intent: TradeIntent, plan: TradePlan): (Account, Execution)
    requires Positive(a.book)
  {
    if !plan.approved then
      (a, if plan.riskCode.Some? then Refused(plan.riskCode.value, plan.reason) else NotSubmitted(plan.reason))
    else if plan.request.None? then (a, Raised(ApprovedWithoutRequest))
    else if plan.request.value.symbol != intent.symbol || plan.request.value.price != intent.entryPrice then
      (a, Raised(RequestMismatch))
    else if !IsOrder(plan.request.value) then (a, Raised(InvalidOrder))
    else
      var trade := AsTrade(intent.side, plan.request.value);
      (Traded(a, trade),
       Submitted(intent.side, if Attempted(a, trade).Ok? then Filled else Rejected, plan.request.value.quantity))
  }

  ghost function Executed(a: Account, config: RiskConfig, intent: TradeIntent): (Account, Execution)
    requires Positive(a.book) && intent.Valid()
  {
    var plan := Planned(ExecutionDefaults(config), config.maxRiskPerTrade, ViewOf(a), intent, None, {});
    if plan.Err? then (a, Raised(Planning(plan.error))) else SubmittedPlan(a, intent, plan.value)
  }

  /** What becomes of any plan at all, whoever made it: an approved one is submitted
    * exactly when its request is the intent's symbol and price and a valid order;
    * nothing else touches the account. */
  lemma SubmitPlanExactly(a: Account, intent: TradeIntent, plan: TradePlan)
    requires Positive(a.book) && intent.Valid()
    ensures var (a', outcome) := SubmittedPlan(a, intent, plan);
            && (outcome.Submitted? <==>
                  && plan.approved && plan.request.Some? && plan.request.value.quantity > 0
                  && plan.request.value.symbol == intent.symbol && plan.request.value.price == intent.entryPrice)
            && (outcome.Refused? <==> !plan.approved && plan.riskCode.Some?)
            && (outcome.NotSubmitted? <==> !plan.approved && plan.riskCode.None?)
            && (outcome == Raised(ApprovedWithoutRequest) <==> plan.approved && plan.request.None?)
            && (outcome.Refused? ==> Some(outcome.code) == plan.riskCode && outcome.message == plan.reason)
            && (outcome.NotSubmitted? ==> outcome.reason == plan.reason)
            && (outcome.Submitted? ==> outcome.side == intent.side && outcome.quantity == plan.request.value.quantity)
            && (a' != a ==> outcome.Submitted? && outcome.status == Filled)
  {
    hide Bought, Sold, Positive;
  }

  class ExecutionPipeline {
    const broker: PaperBroker
    const config: RiskConfig

    constructor (broker: PaperBroker, config: RiskConfig)
      ensures this.broker == broker && this.config == config
    {
      this.broker, this.config := broker, config;
    }

    method Execute(portfolio: Portfolio, intent: TradeIntent) returns (outcome: Execution)
      requires portfolio == broker.portfolio && portfolio.Valid() && intent.Valid()
      modifies broker, portfolio, portfolio.positions.Values, portfolio.ledger
      ensures portfolio.Valid() && fresh(portfolio.positions.Values - old(portfolio.positions.Values))
      ensures Positive(old(portfolio.AsAccount()).book)
      ensures (portfolio.AsAccount(), outcome) == Executed(old(portfolio.AsAccount()), config, intent)
    {
      hide *;
      portfolio.ValidIsPositive();
      var view := portfolio.View();
      var plan := Plan(ExecutionDefaults(config), config.maxRiskPerTrade, view, intent, None, {});
      ExecutedIs(portfolio.AsAccount(), config, intent, plan);
      if plan.Err? {
        return Raised(Planning(plan.error));
      }
      outcome := SubmitPlan(intent, plan.value);
    }

    method SubmitPlan(intent: TradeIntent, plan: TradePlan) returns (outcome: Execution)
      requires broker.portfolio.Valid()
      modifies broker, broker.portfolio, broker.portfolio.positions.Values, broker.portfolio.ledger
      ensures broker.portfolio.Valid()
      ensures fresh(broker.portfolio.positions.Values - old(broker.portfolio.positions.Values))
      ensures Positive(old(broker.portfolio.AsAccount()).book)
      ensures (broker.portfolio.AsAccount(), outcome) == SubmittedPlan(old(broker.portfolio.AsAccount()), intent, plan)
    {
      hide Portfolio.Valid, Portfolio.AsAccount, Positive, Attempted, Order.AsTrade;
      broker.portfolio.ValidIsPositive();
      if !plan.approved {
        if plan.riskCode.Some? {
          return Refused(plan.riskCode.value, plan.reason);
        }
        return NotSubmitted(plan.reason);
      }
      if plan.request.None? {
        return Raised(ApprovedWithoutRequest);
      }
      var request := plan.request.value;
      if request.symbol != intent.symbol || request.price != intent.entryPrice {
        return Raised(RequestMismatch);
      }
      if !IsOrder(request) {
        return Raised(InvalidOrder);
      }
      var order := new Order(request.symbol, intent.side, request.quantity, request.price);
      OrderIsTrade(order, request);
      broker.SubmitOrder(order);
      outcome := Submitted(intent.side, order.status, request.quantity);
    }
  }

  lemma OrderIsTrade(order: Order, request: TradeRequest)
    requires order.symbol == request.symbol && order.quantity == request.quantity && order.price == request.price
    ensures order.AsTrade() == AsTrade(order.side, request)
  {
  }

  lemma ExecutedIs(a: Account, config: RiskConfig, intent: TradeIntent, plan: Result<TradePlan, PlanError>)
    requires Positive(a.book) && intent.Valid()
    requires plan == Planned(ExecutionDefaults(config), config.maxRiskPerTrade, ViewOf(a), intent, None, {})
    ensures Executed(a, config, intent)
            == if plan.Err? then (a, Raised(Planning(plan.error))) else SubmittedPlan(a, intent, plan.value)
  {
  }

  // ---- Limits over whole runs --------------------------------------------------

  ghost predicate WithinLimits(a: Account, config: RiskConfig) {
    && AccountInv(a)
    && Equity(a) > 0.0
    && Invested(a.book) <= Equity(a) * config.maxPortfolioExposure
    && |a.book| <= config.maxOpenPositions
  }

  // ---- One execution, by the account alone ---------------------------------------

  /** Past the daily loss: realized losses are the allowed fraction of the starting
    * cash, or more. */
  predicate Stopped(a: Account, config: RiskConfig) {
    a.realizedPnl <= -(a.startingCash * config.maxDailyLoss)
  }

  /** Why an order of `quantity` shares is refused: the first limit it would break;
    * None when it breaks none. */
  ghost function Refusal(a: Account, config: RiskConfig, symbol: string, quantity: nat, price: real)
    : Option<(Code, Reason)>
  {
    var cost := quantity as real * price;
    if Stopped(a, config) then Some((MAX_DAILY_LOSS, DailyLossReached))
    else if cost > a.cash then Some((INSUFFICIENT_BUYING_POWER, ExceedsBuyingPower))
    else if HeldValue(a, symbol, price) + cost > Equity(a) * config.maxPositionSize then
      Some((MAX_POSITION_SIZE, ExceedsPositionSize))
    else if symbol !in a.book && |a.book| >= config.maxOpenPositions then
      Some((MAX_OPEN_POSITIONS, OpenPositionsExceeded))
    else if Invested(a.book) + cost > Equity(a) * config.maxPortfolioExposure then
      Some((MAX_PORTFOLIO_EXPOSURE, ExceedsExposure))
    else None
  }

  /** Everything `execute` can do, told without plan or policies. */
  ghost predicate ExecutedByLaw(a: Account, config: RiskConfig, intent: TradeIntent)
    requires Positive(a.book) && intent.Valid()
  {
    var (a', outcome) := Executed(a, config, intent);
    var symbol, price := intent.symbol, intent.entryPrice;
    if Equity(a) <= 0.0 then outcome == Raised(Planning(EquityNotPositive)) && a' == a
    else if config.maxRiskPerTrade <= 0.0 then outcome == Raised(Planning(RiskNotPositive)) && a' == a
    else if config.maxRiskPerTrade > 1.0 then outcome == Raised(Planning(RiskAboveOne)) && a' == a
    else
      var quantity := RiskQuantity(Equity(a), intent, config.maxRiskPerTrade);
      var refusal := Refusal(a, config, symbol, quantity, price);
      if quantity == 0 then outcome == NotSubmitted(InsufficientRiskAllowance) && a' == a
      else if refusal.Some? then outcome == Refused(refusal.value.0, refusal.value.1) && a' == a
      else if intent.side == Buy then
        outcome == Submitted(Buy, Filled, quantity) && Bought(a, symbol, quantity, price) == Ok(a')
      else if symbol in a.book && quantity <= a.book[symbol].quantity then
        outcome == Submitted(Sell, Filled, quantity) && Sold(a, symbol, quantity, price) == Ok(a')
      else outcome == Submitted(Sell, Rejected, quantity) && a' == a
  }

  /** The view shows the planner the account's own amounts. */
  lemma SameVerdict(a: Account, config: RiskConfig, symbol: string, quantity: nat, price: real)
    ensures var refusal := Refusal(a, config, symbol, quantity, price);
            ValidateTrade(ViewOf(a), config, TradeRequest(symbol, quantity, price))
            == if refusal.None? then None else Some(Violation(refusal.value.0, refusal.value.1))
  {
    hide Equity, Invested;
  }

  lemma ExecutesByLaw(a: Account, config: RiskConfig, intent: TradeIntent)
    requires Positive(a.book) && intent.Valid()
    ensures ExecutedByLaw(a, config, intent)
  {
    hide Planned, Equity, Invested, RiskQuantity, ValidateTrade, Refusal, Executed, Bought, Sold, ExecutionDefaults,
         PlanByLaw;
    var r := Planned(ExecutionDefaults(config), config.maxRiskPerTrade, ViewOf(a), intent, None, {});
    ExecutedIs(a, config, intent, r);
    PlanOrRaise(a, config, intent);
    if r.Ok? {
      var quantity := RiskQuantity(Equity(a), intent, config.maxRiskPerTrade);
      PlannerMatchesRiskManager(ViewOf(a), config, intent, None, {});
      SameVerdict(a, config, intent.symbol, quantity, intent.entryPrice);
      if quantity == 0 {
        NothingSized(a, config, intent);
      } else if Refusal(a, config, intent.symbol, quantity, intent.entryPrice).None? {
        ApprovedSubmits(a, config, intent, r.value, quantity);
      }
    }
  }

  /** Planning fails exactly on the sizing request's own errors. */
  lemma PlanOrRaise(a: Account, config: RiskConfig, intent: TradeIntent)
    requires intent.Valid()
    ensures var r := Planned(ExecutionDefaults(config), config.maxRiskPerTrade, ViewOf(a), intent, None, {});
            if Equity(a) <= 0.0 then r == Err(EquityNotPositive)
            else if config.maxRiskPerTrade <= 0.0 then r == Err(RiskNotPositive)
            else if config.maxRiskPerTrade > 1.0 then r == Err(RiskAboveOne)
            else r.Ok?
  {
    hide Planned, Equity, Invested, ExecutionDefaults;
    PlansByLaw(ExecutionDefaults(config), config.maxRiskPerTrade, ViewOf(a), intent, None, {});
  }

  lemma NothingSized(a: Account, config: RiskConfig, intent: TradeIntent)
    requires intent.Valid() && Equity(a) > 0.0 && 0.0 < config.maxRiskPerTrade <= 1.0
    requires RiskQuantity(Equity(a), intent, config.maxRiskPerTrade) == 0
    ensures var r := Planned(ExecutionDefaults(config), config.maxRiskPerTrade, ViewOf(a), intent, None, {});
            r.Ok? && r.value.reason == InsufficientRiskAllowance && !r.value.approved && r.value.riskCode == None
  {
    hide Equity, Invested, RiskQuantity, Decisions;
  }

  /** An approved order of at least one share that no limit refuses: a purchase is
    * always filled, a sale exactly when the shares are held. */
  lemma ApprovedSubmits(a: Account, config: RiskConfig, intent: TradeIntent, plan: TradePlan, quantity: nat)
    requires Positive(a.book) && intent.Valid() && quantity > 0 && plan.approved
    requires plan.request == Some(TradeRequest(intent.symbol, quantity, intent.entryPrice))
    requires Refusal(a, config, intent.symbol, quantity, intent.entryPrice).None?
    ensures var (a', outcome) := SubmittedPlan(a, intent, plan);
            var symbol, price := intent.symbol, intent.entryPrice;
            if intent.side == Buy then
              outcome == Submitted(Buy, Filled, quantity) && Bought(a, symbol, quantity, price) == Ok(a')
            else if symbol in a.book && quantity <= a.book[symbol].quantity then
              outcome == Submitted(Sell, Filled, quantity) && Sold(a, symbol, quantity, price) == Ok(a')
            else outcome == Submitted(Sell, Rejected, quantity) && a' == a
  {
    hide Bought, Sold, Positive, Invested, Equity, HeldValue;
    PurchaseExactly(a, intent.symbol, quantity, intent.entryPrice);
    SaleExactly(a, intent.symbol, quantity, intent.entryPrice);
  }

  /** Past the daily loss an execution leaves the account alone and submits nothing;
    * where at least one share is sized it says that the daily loss is reached. */
  lemma DailyLossStops(a: Account, config: RiskConfig, intent: TradeIntent)
    requires Positive(a.book) && intent.Valid() && Stopped(a, config)
    ensures var (a', outcome) := Executed(a, config, intent);
            && a' == a && !outcome.Submitted?
            && (Equity(a) > 0.0 && 0.0 < config.maxRiskPerTrade <= 1.0
                && RiskQuantity(Equity(a), intent, config.maxRiskPerTrade) >= 1 ==>
                  outcome == Refused(MAX_DAILY_LOSS, DailyLossReached))
  {
    hide Executed, Equity, Invested, RiskQuantity, Stopped;
    ExecutesByLaw(a, config, intent);
  }

  /** Once past the daily loss, no run of executions ever changes the account again. */
  lemma {:induction false} StoppedForGood(a: Account, config: RiskConfig, intents: seq<TradeIntent>, a': Account)
    requires Stopped(a, config) && Reached(a, config, intents, a')
    ensures a' == a
    decreases |intents|
  {
    hide Executed, Stopped;
    if intents != [] {
      DailyLossStops(a, config, intents[0]);
      StoppedForGood(a, config, intents[1..], a');
    }
  }

  /** What an account already holds of a symbol, at a price. */
  function HeldValue(a: Account, symbol: string, price: real): real {
    if symbol in a.book then a.book[symbol].quantity as real * price else 0.0
  }

  /** An approved plan orders the risk size; it is within cash, within the position
    * and exposure limits, either adds to a position or opens one while there is room,
    * and is never made past the daily loss. */
  lemma PlanFacts(a: Account, config: RiskConfig, intent: TradeIntent)
    requires WithinLimits(a, config) && config.Valid() && intent.Valid()
    ensures var r := Planned(ExecutionDefaults(config), config.maxRiskPerTrade, ViewOf(a), intent, None, {});
            && r.Ok?
            && (r.value.approved ==>
                  && r.value.request.Some?
                  && var t := r.value.request.value;
                     && t.symbol == intent.symbol && t.price == intent.entryPrice && t.quantity > 0
                     && t.quantity == RiskQuantity(Equity(a), intent, config.maxRiskPerTrade)
                     && t.Cost() <= a.cash
                     && HeldValue(a, t.symbol, t.price) + t.Cost() <= Equity(a) * config.maxPositionSize
                     && a.realizedPnl > -(a.startingCash * config.maxDailyLoss)
                     && Invested(a.book) + t.Cost() <= Equity(a) * config.maxPortfolioExposure
                     && (t.symbol in a.book || |a.book| < config.maxOpenPositions))
  {
    hide Planned, RiskQuantity, Invested, Equity, ExecutionDefaults, AccountInv, TradeRequest.Cost;
    PlannerMatchesRiskManager(ViewOf(a), config, intent, None, {});
  }

  lemma BuyStays(a: Account, config: RiskConfig, t: TradeRequest)
    requires WithinLimits(a, config)
    requires t.symbol != "" && t.quantity > 0 && t.price > 0.0 && t.Cost() <= a.cash
    requires Invested(a.book) + t.Cost() <= Equity(a) * config.maxPortfolioExposure
    requires t.symbol in a.book || |a.book| < config.maxOpenPositions
    ensures AccountInv(a) && Attempted(a, AsTrade(Buy, t)).Ok?
    ensures WithinLimits(Traded(a, AsTrade(Buy, t)), config)
  {
    hide Invested, Equity, AccountInv;
    AccountIsPositive(a);
    BuyKeeps(a, t.symbol, t.quantity, t.price);
  }

  /** A sale at a loss lowers equity by no more than it lowers the exposure, and
    * the exposure limit is a fraction of at most one. */
  lemma SellStays(a: Account, config: RiskConfig, t: TradeRequest)
    requires WithinLimits(a, config) && 0.0 <= config.maxPortfolioExposure <= 1.0
    ensures AccountInv(a) && WithinLimits(Traded(a, AsTrade(Sell, t)), config)
  {
    hide Invested, Equity, AccountInv, Sold;
    AccountIsPositive(a);
    var r := Sold(a, t.symbol, t.quantity, t.price);
    if r.Ok? {
      SoldHeld(a, t.symbol, t.quantity, t.price);
      SellKeeps(a, t.symbol, t.quantity, t.price);
      LossStaysWithin(Invested(a.book), Equity(a), config.maxPortfolioExposure,
                      t.quantity as real * a.book[t.symbol].averagePrice, t.quantity as real * t.price);
    }
  }

  lemma SoldHeld(a: Account, symbol: string, quantity: int, price: real)
    requires Sold(a, symbol, quantity, price).Ok?
    ensures symbol in a.book
  {
  }

  lemma LossStaysWithin(invested: real, equity: real, fraction: real, cost: real, proceeds: real)
    requires invested <= equity * fraction && 0.0 <= fraction <= 1.0 && cost > 0.0 && proceeds > 0.0
    ensures invested - cost <= (equity + proceeds - cost) * fraction
  {
    Scale(fraction, 1.0, cost);
    Scale(0.0, fraction, proceeds);
    var kept, gained, lost := equity * fraction, fraction * proceeds, fraction * cost;
    assert (equity + proceeds - cost) * fraction == kept + gained - lost;
    assert gained >= 0.0 && lost <= cost;
  }

  /** One execution keeps the limits, never raises, submits nothing past the daily
    * loss, fills every buy it submits and exactly the sales of shares held, and
    * leaves the account alone unless an order is filled. */
  lemma StepKeepsLimits(a: Account, config: RiskConfig, intent: TradeIntent)
    requires WithinLimits(a, config) && config.Valid() && intent.Valid()
    ensures Positive(a.book)
    ensures var (a', outcome) := Executed(a, config, intent);
            && WithinLimits(a', config)
            && !outcome.Raised?
            && (outcome.Submitted? ==> outcome.side == intent.side && !Stopped(a, config))
            && (outcome.Submitted? && outcome.side == Buy ==> outcome.status == Filled)
            && (outcome.Submitted? && outcome.side == Sell ==>
                  (outcome.status == Filled <==>
                     intent.symbol in a.book && outcome.quantity <= a.book[intent.symbol].quantity))
            && (!outcome.Submitted? || outcome.status == Rejected ==> a' == a)
  {
    AccountIsPositive(a);
    hide Planned, WithinLimits, Traded, Attempted, Invested, Equity, Stopped, RiskQuantity, Refusal, HeldValue;
    ExecutesByLaw(a, config, intent);
    PlanFacts(a, config, intent);
    var plan := Planned(ExecutionDefaults(config), config.maxRiskPerTrade, ViewOf(a), intent, None, {}).value;
    ExecutedIs(a, config, intent, Ok(plan));
    if plan.approved {
      if intent.side == Buy {
        BuyStays(a, config, plan.request.value);
      } else {
        SellStays(a, config, plan.request.value);
      }
    }
  }

  /** The accounts a pipeline reaches from a given one. */
  ghost predicate Reached(a: Account, config: RiskConfig, intents: seq<TradeIntent>, a': Account)
    decreases |intents|
  {
    if intents == [] then a' == a
    else
      && Positive(a.book) && intents[0].Valid()
      && Reached(Executed(a, config, intents[0]).0, config, intents[1..], a')
  }

  lemma {:induction false} RunKeepsLimits(a: Account, config: RiskConfig, intents: seq<TradeIntent>, a': Account)
    requires WithinLimits(a, config) && config.Valid() && Reached(a, config, intents, a')
    ensures WithinLimits(a', config)
    decreases |intents|
  {
    hide WithinLimits, Executed;
    if intents != [] {
      StepKeepsLimits(a, config, intents[0]);
      RunKeepsLimits(Executed(a, config, intents[0]).0, config, intents[1..], a');
    }
  }

  /** A fresh account traded only through the pipeline, over any intents: its
    * exposure and position count stay within the configured limits, its equity
    * stays positive, and the next execution never raises and fills if it buys. */
  lemma FreshRunsStayWithinLimits(startingCash: real, config: RiskConfig, intents: seq<TradeIntent>, a: Account,
                                  next: TradeIntent)
    requires startingCash > 0.0 && config.Valid() && next.Valid()
    requires Reached(Opened(startingCash), config, intents, a)
    ensures Invested(a.book) <= Equity(a) * config.maxPortfolioExposure
    ensures |a.book| <= config.maxOpenPositions
    ensures Equity(a) > 0.0 && a.cash >= 0.0 && Positive(a.book)
    ensures var outcome := Executed(a, config, next).1;
            && !outcome.Raised?
            && (outcome.Submitted? && outcome.side == Buy ==> outcome.status == Filled)
  {
    OpenedWithinLimits(startingCash, config);
    RunKeepsLimits(Opened(startingCash), config, intents, a);
    StepKeepsLimits(a, config, next);
    WithinLimitsSays(a, config);
  }

  lemma OpenedWithinLimits(startingCash: real, config: RiskConfig)
    requires startingCash > 0.0 && config.Valid()
    ensures WithinLimits(Opened(startingCash), config)
  {
    OpenedKeeps(startingCash);
    EmptyInvested();
    Scale(0.0, config.maxPortfolioExposure, startingCash);
  }

  lemma WithinLimitsSays(a: Account, config: RiskConfig)
    requires WithinLimits(a, config)
    ensures Invested(a.book) <= Equity(a) * config.maxPortfolioExposure
    ensures |a.book| <= config.maxOpenPositions
    ensures Equity(a) > 0.0 && a.cash >= 0.0
  {
  }
}
