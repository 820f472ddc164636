/** The ordered planning policies (volcanoes/risk/trade_policies.py) and the
  * read-only account view and trade intent they read.
  * Each explanation text is a tagged value with the numbers it prints.
  */
module TradePolicies {
  import opened Wrappers
  import opened Money

  datatype Side = Buy | Sell

  datatype TradeIntent = TradeIntent(symbol: string, side: Side, entryPrice: real, stopPrice: real) {
    /** What the constructor accepts. */
    predicate Valid() {
      && symbol != "" && entryPrice > 0.0 && stopPrice > 0.0
      && (if side == Buy then stopPrice < entryPrice else stopPrice > entryPrice)
    }

    function RiskPerShare(): (r: real)
      requires Valid()
      ensures r > 0.0
    {
      if entryPrice >= stopPrice then entryPrice - stopPrice else stopPrice - entryPrice
    }
  }

  /** The account state a policy may read; `holdings` gives the quantity held of
    * each normalized symbol. */
  datatype PortfolioView = PortfolioView(
    equity: real,
    startingCash: real,
    realizedPnl: real,
    buyingPower: real,
    investedValue: real,
    openPositions: int,
    holdings: map<string, int>)

  datatype Reason =
    | Passes
    | PriceBelowMinimum(minimumPrice: real)
    | TargetRequired
    | RewardRiskBelow(rewardRisk: real, required: real)
    | PositionCountReached
    | PositionExists
    | OpenOrderExists
    | DailyLossLock
    | ZeroShares
    | DailyLossReached
    | ExceedsBuyingPower
    | ExceedsPositionSize
    | OpenPositionsExceeded
    | ExceedsExposure
    | InsufficientRiskAllowance
    | AllRulesPassed
    | LongOnly
    | InvalidProposal
    | StopOutOfRange
    | TargetNotAboveEntry
    | NoEquity

  datatype Code =
    | MINIMUM_PRICE
    | TARGET_PRICE_REQUIRED
    | MINIMUM_REWARD_RISK
    | DUPLICATE_POSITION
    | DUPLICATE_ORDER
    | INSUFFICIENT_BUYING_POWER
    | BUYING_POWER_LIMIT
    | MAX_DAILY_LOSS
    | MAX_POSITION_SIZE
    | MAX_POSITION_SIZE_LIMIT
    | MAX_OPEN_POSITIONS
    | MAX_PORTFOLIO_EXPOSURE
    | MAX_PORTFOLIO_EXPOSURE_LIMIT

  datatype QuantityLimitMode = Reject | Cap

  datatype DailyLossBasis = StartingEquity | CurrentEquity

  datatype Policy =
    | MinimumPrice(minimumPrice: real)
    | RewardRisk(minimumRewardRisk: real)
    | DuplicatePosition
    | DuplicateOrder
    | BuyingPower(mode: QuantityLimitMode)
    | DailyLoss(fraction: real, basis: DailyLossBasis, rejection: Reason)
    | MaximumPositionSize(fraction: real, mode: QuantityLimitMode, includeExisting: bool)
    | OpenPositionLimit(maximum: int, allowExisting: bool, rejection: Reason)
    | PortfolioExposure(fraction: real, mode: QuantityLimitMode)

  datatype Context = Context(
    portfolio: PortfolioView,
    intent: TradeIntent,
    quantity: nat,
    target: Option<real>,
    openOrders: set<string>)

  datatype Decision = Decision(approved: bool, code: Code, explanation: Reason, maximumQuantity: Option<nat>)

  /** A policy that only approves or rejects. */
  function Verdict(approved: bool, code: Code, rejection: Reason): Decision {
    Decision(approved, code, if approved then Passes else rejection, None)
  }

  /** A policy that limits the quantity: it rejects what exceeds the limit, or
    * caps it. */
  function Limited(limit: nat, quantity: nat, mode: QuantityLimitMode, code: Code, limitCode: Code,
                   rejection: Reason): Decision
  {
    if quantity > limit && mode == Reject then Decision(false, code, rejection, None)
    else Decision(true, limitCode, Passes, if mode == Cap then Some(limit) else None)
  }

  /** Value still open to one position, at the entry price. */
  function PositionRoom(portfolio: PortfolioView, intent: TradeIntent, fraction: real, includeExisting: bool): real {
    portfolio.equity * fraction
    - if includeExisting && intent.symbol in portfolio.holdings
      then portfolio.holdings[intent.symbol] as real * intent.entryPrice else 0.0
  }

  /** Value still open to the whole portfolio. */
  function ExposureRoom(portfolio: PortfolioView, fraction: real): real {
    portfolio.equity * fraction - portfolio.investedValue
  }

  function Evaluate(p: Policy, c: Context): Decision
    requires c.intent.Valid()
  {
    var price := c.intent.entryPrice;
    match p
    case MinimumPrice(minimum) => Verdict(price >= minimum, MINIMUM_PRICE, PriceBelowMinimum(minimum))
    case RewardRisk(minimum) =>
      if c.target.None? then Verdict(false, TARGET_PRICE_REQUIRED, TargetRequired)
      else
        var reward := if c.intent.side == Buy then c.target.value - price else price - c.target.value;
        var ratio := reward / c.intent.RiskPerShare();
        Verdict(ratio >= minimum, MINIMUM_REWARD_RISK, RewardRiskBelow(ratio, minimum))
    case DuplicatePosition =>
      Verdict(c.intent.symbol !in c.portfolio.holdings, DUPLICATE_POSITION, PositionExists)
    case DuplicateOrder =>
      Verdict(c.intent.symbol !in c.openOrders, DUPLICATE_ORDER, OpenOrderExists)
    case BuyingPower(mode) =>
      Limited(WholeUnits(c.portfolio.buyingPower, price), c.quantity, mode,
              INSUFFICIENT_BUYING_POWER, BUYING_POWER_LIMIT, ExceedsBuyingPower)
    case DailyLoss(fraction, basis, rejection) =>
      var base := if basis == CurrentEquity then c.portfolio.equity else c.portfolio.startingCash;
      Verdict(!(c.portfolio.realizedPnl <= -(base * fraction)), MAX_DAILY_LOSS, rejection)
    case MaximumPositionSize(fraction, mode, includeExisting) =>
      Limited(WholeUnits(Max(0.0, PositionRoom(c.portfolio, c.intent, fraction, includeExisting)), price),
              c.quantity, mode, MAX_POSITION_SIZE, MAX_POSITION_SIZE_LIMIT, ExceedsPositionSize)
    case OpenPositionLimit(maximum, allowExisting, rejection) =>
      Verdict((allowExisting && c.intent.symbol in c.portfolio.holdings) || c.portfolio.openPositions < maximum,
              MAX_OPEN_POSITIONS, rejection)
    case PortfolioExposure(fraction, mode) =>
      Limited(WholeUnits(Max(0.0, ExposureRoom(c.portfolio, fraction)), price), c.quantity, mode,
              MAX_PORTFOLIO_EXPOSURE, MAX_PORTFOLIO_EXPOSURE_LIMIT, ExceedsExposure)
  }

  datatype PolicySet = PolicySet(
    policies: seq<Policy>,
    collectAll: bool,
    evaluateWhenZero: bool,
    zeroQuantityReason: Reason)

  datatype RiskConfig = RiskConfig(
    maxRiskPerTrade: real,
    maxDailyLoss: real,
    maxPortfolioExposure: real,
    maxPositionSize: real,
    maxOpenPositions: int)
  {
    /** What the policy constructors and the sizing request accept. */
    predicate Valid() {
      && 0.0 < maxRiskPerTrade <= 1.0
      && 0.0 <= maxDailyLoss <= 1.0
      && 0.0 <= maxPortfolioExposure <= 1.0
      && 0.0 <= maxPositionSize <= 1.0
      && 0 <= maxOpenPositions
    }
  }

  datatype ParityConfig = ParityConfig(
    minimumPrice: real,
    minimumRewardRisk: real,
    maximumDailyLoss: real,
    maximumPositionSize: real,
    maximumPortfolioExposure: real,
    maximumOpenPositions: int)

  function ExecutionDefaults(config: RiskConfig): PolicySet {
    PolicySet([DailyLoss(config.maxDailyLoss, StartingEquity, DailyLossReached),
               BuyingPower(Reject),
               MaximumPositionSize(config.maxPositionSize, Reject, true),
               OpenPositionLimit(config.maxOpenPositions, true, OpenPositionsExceeded),
               PortfolioExposure(config.maxPortfolioExposure, Reject)],
              false, false, InsufficientRiskAllowance)
  }

  function PreviewParity(config: ParityConfig): PolicySet {
    PolicySet([MinimumPrice(config.minimumPrice),
               RewardRisk(config.minimumRewardRisk),
               OpenPositionLimit(config.maximumOpenPositions, false, PositionCountReached),
               DuplicatePosition,
               DuplicateOrder,
               DailyLoss(config.maximumDailyLoss, CurrentEquity, DailyLossLock),
               BuyingPower(Cap),
               MaximumPositionSize(config.maximumPositionSize, Cap, false),
               PortfolioExposure(config.maximumPortfolioExposure, Cap)],
              true, true, ZeroShares)
  }

  // ---- What each policy decides, in amounts ----------------------------------------

  function CostOf(n: nat, price: real): real { n as real * price }

  /** A limit by capital: reject mode refuses exactly what costs more, cap mode never
    * refuses and names the greatest number of shares that costs no more. */
  predicate LimitsByCost(d: Decision, mode: QuantityLimitMode, capital: real, price: real, quantity: nat, n: nat) {
    && (d.approved <==> mode == Cap || quantity == 0 || CostOf(quantity, price) <= capital)
    && (d.maximumQuantity.Some? <==> mode == Cap)
    && (mode == Cap && n >= 1 ==> (n <= d.maximumQuantity.value <==> CostOf(n, price) <= capital))
  }

  /** The buying-power policy limits by the buying power. */
  lemma BuyingPowerLimits(c: Context, mode: QuantityLimitMode, n: nat)
    requires c.intent.Valid()
    ensures LimitsByCost(Evaluate(BuyingPower(mode), c), mode, c.portfolio.buyingPower, c.intent.entryPrice,
                         c.quantity, n)
  {
    hide WholeUnits, LimitsByCost, Limited;
    LimitedByCost(c.portfolio.buyingPower, c.intent.entryPrice, c.quantity, mode, INSUFFICIENT_BUYING_POWER,
                  BUYING_POWER_LIMIT, ExceedsBuyingPower, n);
  }

  /** The position-size policy limits by its fraction of the equity, less what is
    * already held where that counts. */
  lemma PositionSizeLimits(c: Context, mode: QuantityLimitMode, fraction: real, includeExisting: bool, held: real,
                           room: real, n: nat)
    requires c.intent.Valid()
    requires held == if includeExisting && c.intent.symbol in c.portfolio.holdings
                     then c.portfolio.holdings[c.intent.symbol] as real * c.intent.entryPrice else 0.0
    requires room == c.portfolio.equity * fraction - held
    ensures LimitsByCost(Evaluate(MaximumPositionSize(fraction, mode, includeExisting), c), mode, room,
                         c.intent.entryPrice, c.quantity, n)
  {
    hide WholeUnits, LimitsByCost, Limited;
    assert PositionRoom(c.portfolio, c.intent, fraction, includeExisting) == room;
    LimitedByRoom(room, c.intent.entryPrice, c.quantity, mode, MAX_POSITION_SIZE, MAX_POSITION_SIZE_LIMIT,
                  ExceedsPositionSize, n);
  }

  /** The exposure policy limits by its fraction of the equity, less what is invested. */
  lemma ExposureLimits(c: Context, mode: QuantityLimitMode, fraction: real, room: real, n: nat)
    requires c.intent.Valid() && room == c.portfolio.equity * fraction - c.portfolio.investedValue
    ensures LimitsByCost(Evaluate(PortfolioExposure(fraction, mode), c), mode, room, c.intent.entryPrice,
                         c.quantity, n)
  {
    hide WholeUnits, LimitsByCost, Limited;
    assert ExposureRoom(c.portfolio, fraction) == room;
    LimitedByRoom(room, c.intent.entryPrice, c.quantity, mode, MAX_PORTFOLIO_EXPOSURE, MAX_PORTFOLIO_EXPOSURE_LIMIT,
                  ExceedsExposure, n);
  }

  lemma LimitedByCost(capital: real, price: real, quantity: nat, mode: QuantityLimitMode, code: Code, limitCode: Code,
                      rejection: Reason, n: nat)
    requires price > 0.0
    ensures LimitsByCost(Limited(WholeUnits(capital, price), quantity, mode, code, limitCode, rejection),
                         mode, capital, price, quantity, n)
  {
    hide WholeUnits;
    var limit := WholeUnits(capital, price);
    assert quantity >= 1 ==> (quantity <= limit <==> CostOf(quantity, price) <= capital) by {
      if quantity >= 1 { WholeUnitsFit(capital, price, quantity); }
    }
    assert n >= 1 ==> (n <= limit <==> CostOf(n, price) <= capital) by {
      if n >= 1 { WholeUnitsFit(capital, price, n); }
    }
    LimitedBy(limit, capital, price, quantity, mode, code, limitCode, rejection, n);
  }

  lemma LimitedBy(limit: nat, capital: real, price: real, quantity: nat, mode: QuantityLimitMode, code: Code,
                  limitCode: Code, rejection: Reason, n: nat)
    requires quantity >= 1 ==> (quantity <= limit <==> CostOf(quantity, price) <= capital)
    requires n >= 1 ==> (n <= limit <==> CostOf(n, price) <= capital)
    ensures LimitsByCost(Limited(limit, quantity, mode, code, limitCode, rejection), mode, capital, price, quantity, n)
  {
    hide CostOf;
  }

  lemma LimitedByRoom(room: real, price: real, quantity: nat, mode: QuantityLimitMode, code: Code, limitCode: Code,
                      rejection: Reason, n: nat)
    requires price > 0.0
    ensures LimitsByCost(Limited(WholeUnits(Max(0.0, room), price), quantity, mode, code, limitCode, rejection),
                         mode, room, price, quantity, n)
  {
    hide WholeUnits;
    LimitedByCost(Max(0.0, room), price, quantity, mode, code, limitCode, rejection, n);
    if quantity >= 1 {
      ScaleStrict(0.0, quantity as real, price);
    }
    if n >= 1 {
      ScaleStrict(0.0, n as real, price);
    }
  }

  /** The reward policy, on either side: it needs a target, whose distance from the
    * entry in the trade's direction is at least the required multiple of the risk. */
  lemma RewardRiskExactly(minimum: real, c: Context, risk: real)
    requires c.intent.Valid()
    requires risk == if c.intent.side == Buy then c.intent.entryPrice - c.intent.stopPrice
                     else c.intent.stopPrice - c.intent.entryPrice
    ensures var d := Evaluate(RewardRisk(minimum), c);
            && (d.approved <==>
                  && c.target.Some?
                  && (if c.intent.side == Buy then c.target.value - c.intent.entryPrice >= minimum * risk
                      else c.intent.entryPrice - c.target.value >= minimum * risk))
            && (c.target.None? ==> d.code == TARGET_PRICE_REQUIRED && d.explanation == TargetRequired)
  {
    assert c.intent.RiskPerShare() == risk;
    if c.target.Some? {
      var reward := if c.intent.side == Buy then c.target.value - c.intent.entryPrice
                    else c.intent.entryPrice - c.target.value;
      RatioAtLeast(reward, risk, minimum);
    }
  }

  lemma RatioAtLeast(reward: real, risk: real, minimum: real)
    requires risk > 0.0
    ensures reward / risk >= minimum <==> reward >= minimum * risk
  {
    var ratio := reward / risk;
    assert ratio * risk == reward;
    ProductAtLeast(ratio, risk, minimum, reward);
  }

  lemma ProductAtLeast(ratio: real, risk: real, minimum: real, reward: real)
    requires risk > 0.0 && ratio * risk == reward
    ensures ratio >= minimum <==> reward >= minimum * risk
  {
    if ratio >= minimum {
      Scale(minimum, ratio, risk);
    } else {
      ScaleStrict(ratio, minimum, risk);
    }
  }
}
