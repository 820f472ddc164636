/** The preview profile of the planner against the legacy buy preview
  * (trading/risk_manager.py, adapters/paper_order_composition.py,
  * adapters/broker_portfolio_view.py).
  */
module PreviewParityModel {
  import opened Wrappers
  import opened Money
  import opened TradePolicies
  import opened TradePlanner

  datatype RiskLimits = RiskLimits(
    riskPerTradePct: real,
    maxDailyLossPct: real,
    maxOpenPositions: int,
    maxTotalExposurePct: real,
    maxSinglePositionPct: real,
    minimumRewardRisk: real,
    minimumPrice: real,
    longOnly: bool)

  datatype TradeProposal = TradeProposal(
    symbol: string,
    entryPrice: real,
    stopPrice: real,
    targetPrice: real,
    buys: bool)

  datatype AccountSnapshot = AccountSnapshot(equity: real, buyingPower: real, dailyPnl: real)

  datatype BrokerPosition = BrokerPosition(symbol: string, quantity: int, currentPrice: real) {
    function MarketValue(): real { quantity as real * currentPrice }
  }

  /** Amounts before the display rounding to two decimals. */
  datatype RiskDecision = RiskDecision(
    approved: bool,
    quantity: nat,
    maximumLoss: real,
    capitalRequired: real,
    rewardRisk: real,
    reasons: seq<Reason>)

  function Absolute(x: real): real { if x < 0.0 then -x else x }

  function GrossExposure(positions: seq<BrokerPosition>): real {
    if positions == [] then 0.0 else Absolute(positions[0].MarketValue()) + GrossExposure(positions[1..])
  }

  predicate Holds(positions: seq<BrokerPosition>, symbol: string) {
    exists i :: 0 <= i < |positions| && positions[i].symbol == symbol
  }

  /** `reasons.append(reason)` under a condition. */
  function Note(reasons: seq<Reason>, condition: bool, reason: Reason): seq<Reason> {
    if condition then reasons + [reason] else reasons
  }

  function LegacyRewardRisk(p: TradeProposal): real {
    if p.entryPrice > p.stopPrice then (p.targetPrice - p.entryPrice) / (p.entryPrice - p.stopPrice) else 0.0
  }

  function Percent(amount: real, percent: real): real { amount * percent / 100.0 }

  /** Value still open to the whole portfolio. */
  function Available(limits: RiskLimits, account: AccountSnapshot, exposure: real): real {
    Max(0.0, Percent(account.equity, limits.maxTotalExposurePct) - exposure)
  }

  /** The four floor quotients of the legacy evaluation. */
  function ByRisk(limits: RiskLimits, p: TradeProposal, account: AccountSnapshot): int
    requires p.entryPrice > p.stopPrice
  {
    FloorDiv(Percent(account.equity, limits.riskPerTradePct), p.entryPrice - p.stopPrice)
  }

  function ByCash(p: TradeProposal, account: AccountSnapshot): int
    requires p.entryPrice != 0.0
  {
    FloorDiv(account.buyingPower, p.entryPrice)
  }

  function ByPosition(limits: RiskLimits, p: TradeProposal, account: AccountSnapshot): int
    requires p.entryPrice != 0.0
  {
    FloorDiv(Percent(account.equity, limits.maxSinglePositionPct), p.entryPrice)
  }

  function ByExposure(limits: RiskLimits, p: TradeProposal, account: AccountSnapshot, exposure: real): int
    requires p.entryPrice != 0.0
  {
    FloorDiv(Available(limits, account, exposure), p.entryPrice)
  }

  /** The least of them, and not below zero. */
  function LegacyQuantity(limits: RiskLimits, p: TradeProposal, account: AccountSnapshot, exposure: real): nat
    requires p.entryPrice != 0.0 && p.entryPrice > p.stopPrice
  {
    Clamped(MinInt(MinInt(ByRisk(limits, p, account), ByCash(p, account)),
                   MinInt(ByExposure(limits, p, account, exposure), ByPosition(limits, p, account))))
  }

  function Clamped(n: int): nat { if n < 0 then 0 else n }

  function MinInt(a: int, b: int): int { if a <= b then a else b }

  /** The reasons that only look at the proposal and the equity. */
  function ProposalReasons(limits: RiskLimits, p: TradeProposal, account: AccountSnapshot): seq<Reason> {
    var r1 := Note([], limits.longOnly && !p.buys, LongOnly);
    var r2 := Note(r1, p.entryPrice < limits.minimumPrice, PriceBelowMinimum(limits.minimumPrice));
    var r3 := Note(r2, p.stopPrice <= 0.0 || p.stopPrice >= p.entryPrice, StopOutOfRange);
    var r4 := Note(r3, p.targetPrice <= p.entryPrice, TargetNotAboveEntry);
    Note(r4, account.equity <= 0.0, NoEquity)
  }

  /** All reasons, in the order the legacy evaluation appends them. */
  function LegacyReasons(limits: RiskLimits, p: TradeProposal, account: AccountSnapshot,
                         positions: seq<BrokerPosition>, openOrders: set<string>, quantity: nat): seq<Reason>
  {
    var rewardRisk := LegacyRewardRisk(p);
    var r6 := Note(ProposalReasons(limits, p, account), rewardRisk < limits.minimumRewardRisk,
                   RewardRiskBelow(rewardRisk, limits.minimumRewardRisk));
    var r7 := Note(r6, |positions| >= limits.maxOpenPositions, PositionCountReached);
    var r8 := Note(r7, Holds(positions, p.symbol), PositionExists);
    var r9 := Note(r8, p.symbol in openOrders, OpenOrderExists);
    var r10 := Note(r9, account.dailyPnl <= -Percent(account.equity, limits.maxDailyLossPct), DailyLossLock);
    Note(r10, quantity < 1, ZeroShares)
  }

  function LegacyResult(p: TradeProposal, quantity: nat, reasons: seq<Reason>): RiskDecision {
    RiskDecision(reasons == [], quantity, quantity as real * Max(p.entryPrice - p.stopPrice, 0.0),
                 quantity as real * p.entryPrice, LegacyRewardRisk(p), reasons)
  }

  /** None where the legacy code divides by a zero entry price. */
  function LegacyDecision(limits: RiskLimits, p: TradeProposal, account: AccountSnapshot,
                          positions: seq<BrokerPosition>, openOrders: set<string>): Option<RiskDecision>
  {
    if p.symbol == "" then Some(RiskDecision(false, 0, 0.0, 0.0, 0.0, [InvalidProposal]))
    else if p.entryPrice == 0.0 && p.entryPrice > p.stopPrice then None
    else
      var quantity := if p.entryPrice <= p.stopPrice then 0
                      else LegacyQuantity(limits, p, account, GrossExposure(positions));
      Some(LegacyResult(p, quantity, LegacyReasons(limits, p, account, positions, openOrders, quantity)))
  }

  method LegacyEvaluate(limits: RiskLimits, p: TradeProposal, account: AccountSnapshot,
                        positions: seq<BrokerPosition>, openOrders: set<string>) returns (r: Option<RiskDecision>)
    ensures r == LegacyDecision(limits, p, account, positions, openOrders)
  {
    hide LegacyQuantity, LegacyRewardRisk, LegacyResult, ProposalReasons, Holds, GrossExposure, Percent;
    if p.symbol == "" {
      return Some(RiskDecision(false, 0, 0.0, 0.0, 0.0, [InvalidProposal]));
    }
    var reasons := CheckProposal(limits, p, account);
    var rewardRisk := LegacyRewardRisk(p);
    if rewardRisk < limits.minimumRewardRisk {
      reasons := reasons + [RewardRiskBelow(rewardRisk, limits.minimumRewardRisk)];
    }
    if |positions| >= limits.maxOpenPositions { reasons := reasons + [PositionCountReached]; }
    if Holds(positions, p.symbol) { reasons := reasons + [PositionExists]; }
    if p.symbol in openOrders { reasons := reasons + [OpenOrderExists]; }
    if account.dailyPnl <= -Percent(account.equity, limits.maxDailyLossPct) {
      reasons := reasons + [DailyLossLock];
    }
    var quantity := 0;
    if p.entryPrice > p.stopPrice {
      if p.entryPrice == 0.0 {
        return None;
      }
      quantity := LegacyQuantity(limits, p, account, GrossExposure(positions));
    }
    if quantity < 1 { reasons := reasons + [ZeroShares]; }
    r := Some(LegacyResult(p, quantity, reasons));
  }

  method CheckProposal(limits: RiskLimits, p: TradeProposal, account: AccountSnapshot) returns (reasons: seq<Reason>)
    ensures reasons == ProposalReasons(limits, p, account)
  {
    reasons := [];
    if limits.longOnly && !p.buys { reasons := reasons + [LongOnly]; }
    if p.entryPrice < limits.minimumPrice { reasons := reasons + [PriceBelowMinimum(limits.minimumPrice)]; }
    if p.stopPrice <= 0.0 || p.stopPrice >= p.entryPrice { reasons := reasons + [StopOutOfRange]; }
    if p.targetPrice <= p.entryPrice { reasons := reasons + [TargetNotAboveEntry]; }
    if account.equity <= 0.0 { reasons := reasons + [NoEquity]; }
  }

  // ---- The planner side --------------------------------------------------------

  /** The quantity of the first position listed for each symbol. */
  function Holdings(positions: seq<BrokerPosition>): map<string, int> {
    if positions == [] then map[] else Holdings(positions[1..])[positions[0].symbol := positions[0].quantity]
  }

  function BrokerView(account: AccountSnapshot, positions: seq<BrokerPosition>): PortfolioView {
    PortfolioView(account.equity, account.equity - account.dailyPnl, account.dailyPnl, account.buyingPower,
                  GrossExposure(positions), |positions|, Holdings(positions))
  }

  function ToParityConfig(limits: RiskLimits): ParityConfig {
    ParityConfig(limits.minimumPrice, limits.minimumRewardRisk, limits.maxDailyLossPct / 100.0,
                 limits.maxSinglePositionPct / 100.0, limits.maxTotalExposurePct / 100.0, limits.maxOpenPositions)
  }

  function PreviewPlan(limits: RiskLimits, p: TradeProposal, account: AccountSnapshot,
                       positions: seq<BrokerPosition>, openOrders: set<string>): Result<TradePlan, PlanError>
    requires WellFormedBuy(p)
  {
    Planned(PreviewParity(ToParityConfig(limits)), limits.riskPerTradePct / 100.0, BrokerView(account, positions),
            ToIntent(p), Some(p.targetPrice), openOrders)
  }

  predicate WellFormedBuy(p: TradeProposal) {
    p.symbol != "" && p.buys && 0.0 < p.stopPrice < p.entryPrice < p.targetPrice
  }

  function ToIntent(p: TradeProposal): TradeIntent {
    TradeIntent(p.symbol, Buy, p.entryPrice, p.stopPrice)
  }

  lemma {:induction false} HoldingsHold(positions: seq<BrokerPosition>, symbol: string)
    ensures symbol in Holdings(positions) <==> Holds(positions, symbol)
  {
    if positions != [] {
      HoldingsHold(positions[1..], symbol);
      if Holds(positions[1..], symbol) {
        var i :| 0 <= i < |positions[1..]| && positions[1..][i].symbol == symbol;
        assert positions[i + 1].symbol == symbol;
      }
      if Holds(positions, symbol) && positions[0].symbol != symbol {
        var i :| 0 <= i < |positions| && positions[i].symbol == symbol;
        assert positions[1..][i - 1].symbol == symbol;
      }
    }
  }

  // ---- Collecting every rejection ------------------------------------------------

  /** The rejections' explanations, appended policy by policy. */
  function Texts(reasons: seq<Reason>, ps: seq<Policy>, c: Context): seq<Reason>
    requires c.intent.Valid()
    decreases |ps|
  {
    if ps == [] then reasons
    else Texts(Note(reasons, !Evaluate(ps[0], c).approved, Evaluate(ps[0], c).explanation), ps[1..], c)
  }

  lemma {:induction false} AllRejections(reasons: seq<Reason>, ps: seq<Policy>, c: Context)
    requires c.intent.Valid()
    ensures var rejected := Rejections(Decisions(ps, c, true));
            Texts(reasons, ps, c) == reasons + Explanations(rejected) && |Explanations(rejected)| == |rejected|
    decreases |ps|
  {
    hide Evaluate;
    if ps != [] {
      var d := Evaluate(ps[0], c);
      var rest := Decisions(ps[1..], c, true);
      AllRejections(Note(reasons, !d.approved, d.explanation), ps[1..], c);
      assert ([d] + rest)[1..] == rest;
      if !d.approved {
        assert ([d] + Rejections(rest))[1..] == Rejections(rest);
        assert (reasons + [d.explanation]) + Explanations(Rejections(rest))
               == reasons + ([d.explanation] + Explanations(Rejections(rest)));
      } else {
        assert [] + Rejections(rest) == Rejections(rest);
      }
    }
  }

  function CapTo(m: Option<nat>, quantity: nat): nat {
    if m.Some? && m.value < quantity then m.value else quantity
  }

  /** The reasons after policy i has spoken. */
  function Noted(reasons: seq<Reason>, ps: seq<Policy>, i: nat, c: Context): seq<Reason>
    requires c.intent.Valid() && i < |ps|
  {
    Note(reasons, !Evaluate(ps[i], c).approved, Evaluate(ps[i], c).explanation)
  }

  lemma TextsFrom(reasons: seq<Reason>, ps: seq<Policy>, i: nat, c: Context)
    requires c.intent.Valid() && i < |ps|
    ensures Texts(reasons, ps[i..], c) == Texts(Noted(reasons, ps, i, c), ps[i + 1..], c)
  {
    hide Evaluate;
    assert ps[i..][1..] == ps[i + 1..];
  }

  lemma CapsFrom(ps: seq<Policy>, i: nat, c: Context, quantity: nat)
    requires c.intent.Valid() && i < |ps|
    ensures Capped(quantity, Decisions(ps[i..], c, true))
            == Capped(CapTo(Evaluate(ps[i], c).maximumQuantity, quantity), Decisions(ps[i + 1..], c, true))
  {
    hide Evaluate;
    assert ps[i..][1..] == ps[i + 1..];
    var rest := Decisions(ps[i + 1..], c, true);
    assert ([Evaluate(ps[i], c)] + rest)[1..] == rest;
  }

  /** Six verdicts that may reject, three limits that only cap. */
  predicate PreviewShape(ps: seq<Policy>, c: Context)
    requires c.intent.Valid()
  {
    && |ps| == 9
    && (forall i :: 0 <= i < 6 ==> Evaluate(ps[i], c).maximumQuantity == None)
    && (forall i :: 6 <= i < 9 ==> Evaluate(ps[i], c).approved)
  }

  lemma NineTexts(ps: seq<Policy>, c: Context)
    requires c.intent.Valid() && PreviewShape(ps, c)
    ensures Texts([], ps, c)
            == Noted(Noted(Noted(Noted(Noted(Noted([], ps, 0, c), ps, 1, c), ps, 2, c), ps, 3, c), ps, 4, c), ps, 5, c)
  {
    hide Evaluate, Texts, Note;
    var r0 := Noted([], ps, 0, c);
    var r1 := Noted(r0, ps, 1, c);
    var r2 := Noted(r1, ps, 2, c);
    var r3 := Noted(r2, ps, 3, c);
    var r4 := Noted(r3, ps, 4, c);
    var r5 := Noted(r4, ps, 5, c);
    TextsFrom([], ps, 0, c);
    TextsFrom(r0, ps, 1, c);
    TextsFrom(r1, ps, 2, c);
    TextsFrom(r2, ps, 3, c);
    TextsFrom(r3, ps, 4, c);
    TextsFrom(r4, ps, 5, c);
    TextsFrom(r5, ps, 6, c);
    TextsFrom(r5, ps, 7, c);
    TextsFrom(r5, ps, 8, c);
    LimitsSaySilent(r5, ps, c);
    assert ps[0..] == ps && ps[9..] == [];
  }

  lemma LimitsSaySilent(reasons: seq<Reason>, ps: seq<Policy>, c: Context)
    requires c.intent.Valid() && PreviewShape(ps, c)
    ensures forall i :: 6 <= i < 9 ==> Noted(reasons, ps, i, c) == reasons
    ensures Texts(reasons, [], c) == reasons
  {
    hide Evaluate;
  }

  lemma NineCaps(ps: seq<Policy>, c: Context, quantity: nat)
    requires c.intent.Valid() && PreviewShape(ps, c)
    ensures Capped(quantity, Decisions(ps, c, true))
            == CapTo(Evaluate(ps[8], c).maximumQuantity,
                     CapTo(Evaluate(ps[7], c).maximumQuantity, CapTo(Evaluate(ps[6], c).maximumQuantity, quantity)))
  {
    hide Evaluate, Decisions, Capped;
    CapsFrom(ps, 0, c, quantity);
    CapsFrom(ps, 1, c, quantity);
    CapsFrom(ps, 2, c, quantity);
    CapsFrom(ps, 3, c, quantity);
    CapsFrom(ps, 4, c, quantity);
    CapsFrom(ps, 5, c, quantity);
    CapsFrom(ps, 6, c, quantity);
    var q6 := CapTo(Evaluate(ps[6], c).maximumQuantity, quantity);
    CapsFrom(ps, 7, c, q6);
    var q7 := CapTo(Evaluate(ps[7], c).maximumQuantity, q6);
    CapsFrom(ps, 8, c, q7);
    NoDecisions(CapTo(Evaluate(ps[8], c).maximumQuantity, q7), c);
    assert ps[0..] == ps && ps[9..] == [];
  }

  lemma NoDecisions(quantity: nat, c: Context)
    requires c.intent.Valid()
    ensures Capped(quantity, Decisions([], c, true)) == quantity
  {
  }

  // ---- The theorem -----------------------------------------------------------------

  function PreviewContext(limits: RiskLimits, p: TradeProposal, account: AccountSnapshot,
                          positions: seq<BrokerPosition>, openOrders: set<string>, quantity: nat): Context
  {
    Context(BrokerView(account, positions), ToIntent(p), quantity, Some(p.targetPrice), openOrders)
  }

  /** Policy i rejects under exactly this condition, with this reason. */
  predicate Says(ps: seq<Policy>, i: nat, c: Context, condition: bool, reason: Reason)
    requires c.intent.Valid() && i < |ps|
  {
    (Evaluate(ps[i], c).approved <==> !condition) && (condition ==> Evaluate(ps[i], c).explanation == reason)
  }

  lemma PreviewVerdicts(limits: RiskLimits, p: TradeProposal, account: AccountSnapshot,
                        positions: seq<BrokerPosition>, openOrders: set<string>, quantity: nat)
    requires WellFormedBuy(p)
    ensures var ps := PreviewParity(ToParityConfig(limits)).policies;
            var c := PreviewContext(limits, p, account, positions, openOrders, quantity);
            && PreviewShape(ps, c)
            && Says(ps, 0, c, p.entryPrice < limits.minimumPrice, PriceBelowMinimum(limits.minimumPrice))
            && Says(ps, 1, c, LegacyRewardRisk(p) < limits.minimumRewardRisk,
                    RewardRiskBelow(LegacyRewardRisk(p), limits.minimumRewardRisk))
            && Says(ps, 2, c, |positions| >= limits.maxOpenPositions, PositionCountReached)
            && Says(ps, 3, c, Holds(positions, p.symbol), PositionExists)
            && Says(ps, 4, c, p.symbol in openOrders, OpenOrderExists)
            && Says(ps, 5, c, account.dailyPnl <= -Percent(account.equity, limits.maxDailyLossPct), DailyLossLock)
  {
    hide WholeUnits, Holds, GrossExposure, Holdings;
    HoldingsHold(positions, p.symbol);
    assert account.equity * (limits.maxDailyLossPct / 100.0) == account.equity * limits.maxDailyLossPct / 100.0;
  }

  /** Planner and legacy code give the same ordered reasons but the last one. */
  lemma SameReasons(limits: RiskLimits, p: TradeProposal, account: AccountSnapshot,
                    positions: seq<BrokerPosition>, openOrders: set<string>, sized: nat, quantity: nat)
    requires WellFormedBuy(p) && account.equity > 0.0
    ensures var ps := PreviewParity(ToParityConfig(limits)).policies;
            var c := PreviewContext(limits, p, account, positions, openOrders, sized);
            Note(Texts([], ps, c), quantity == 0, ZeroShares)
            == LegacyReasons(limits, p, account, positions, openOrders, quantity)
  {
    hide Evaluate, Texts, Holds;
    PreviewVerdicts(limits, p, account, positions, openOrders, sized);
    NineTexts(PreviewParity(ToParityConfig(limits)).policies,
              PreviewContext(limits, p, account, positions, openOrders, sized));
  }

  lemma WholeUnitsClamp(capital: real, price: real)
    requires price > 0.0
    ensures WholeUnits(capital, price) == Clamped(FloorDiv(capital, price))
    ensures capital >= 0.0 ==> FloorDiv(capital, price) >= 0
  {
    if capital <= 0.0 {
      FloorQuotient(capital, price, 1);
    } else {
      FloorQuotient(capital, price, 0);
    }
  }

  lemma PercentOf(amount: real, percent: real)
    ensures Percent(amount, percent) == amount * (percent / 100.0)
    ensures amount >= 0.0 && percent >= 0.0 ==> Percent(amount, percent) >= 0.0
  {
  }

  /** The three capital limits, as the legacy quotients. */
  lemma SameLimits(limits: RiskLimits, p: TradeProposal, account: AccountSnapshot,
                   positions: seq<BrokerPosition>, openOrders: set<string>, sized: nat)
    requires WellFormedBuy(p) && account.equity > 0.0 && InRange(limits)
    ensures var ps := PreviewParity(ToParityConfig(limits)).policies;
            var c := PreviewContext(limits, p, account, positions, openOrders, sized);
            && Evaluate(ps[6], c).maximumQuantity == Some(Clamped(ByCash(p, account)))
            && Evaluate(ps[7], c).maximumQuantity == Some(Clamped(ByPosition(limits, p, account)))
            && Evaluate(ps[8], c).maximumQuantity
               == Some(Clamped(ByExposure(limits, p, account, GrossExposure(positions))))
  {
    hide WholeUnits, GrossExposure, Holdings, Percent, FloorDiv;
    PercentOf(account.equity, limits.maxSinglePositionPct);
    PercentOf(account.equity, limits.maxTotalExposurePct);
    var view := BrokerView(account, positions);
    var positionAmount := Percent(account.equity, limits.maxSinglePositionPct);
    assert Max(0.0, PositionRoom(view, ToIntent(p), limits.maxSinglePositionPct / 100.0, false)) == positionAmount;
    assert Max(0.0, ExposureRoom(view, limits.maxTotalExposurePct / 100.0))
           == Available(limits, account, GrossExposure(positions));
    WholeUnitsClamp(account.buyingPower, p.entryPrice);
    WholeUnitsClamp(positionAmount, p.entryPrice);
    WholeUnitsClamp(Available(limits, account, GrossExposure(positions)), p.entryPrice);
  }

  lemma SameRiskQuotient(limits: RiskLimits, p: TradeProposal, account: AccountSnapshot)
    requires WellFormedBuy(p) && account.equity > 0.0 && 0.0 < limits.riskPerTradePct
    ensures RiskQuantity(account.equity, ToIntent(p), limits.riskPerTradePct / 100.0) == ByRisk(limits, p, account)
  {
    hide Percent, FloorDiv;
    PercentOf(account.equity, limits.riskPerTradePct);
    assert ToIntent(p).RiskPerShare() == p.entryPrice - p.stopPrice;
    assert limits.riskPerTradePct / 100.0 > 0.0;
    assert account.equity * (limits.riskPerTradePct / 100.0) == Percent(account.equity, limits.riskPerTradePct);
  }

  /** Planner and legacy code arrive at the same quantity. */
  lemma SameQuantity(limits: RiskLimits, p: TradeProposal, account: AccountSnapshot,
                     positions: seq<BrokerPosition>, openOrders: set<string>)
    requires WellFormedBuy(p) && account.equity > 0.0
    requires 0.0 < limits.riskPerTradePct <= 100.0 && InRange(limits)
    ensures var ps := PreviewParity(ToParityConfig(limits)).policies;
            var sized := RiskQuantity(account.equity, ToIntent(p), limits.riskPerTradePct / 100.0);
            var c := PreviewContext(limits, p, account, positions, openOrders, sized);
            Capped(sized, Decisions(ps, c, true)) == LegacyQuantity(limits, p, account, GrossExposure(positions))
  {
    hide Decisions, Capped, GrossExposure, Evaluate, RiskQuantity, ByRisk, ByCash, ByPosition, ByExposure,
         Percent, FloorDiv;
    var ps := PreviewParity(ToParityConfig(limits)).policies;
    var sized := RiskQuantity(account.equity, ToIntent(p), limits.riskPerTradePct / 100.0);
    var c := PreviewContext(limits, p, account, positions, openOrders, sized);
    PreviewVerdicts(limits, p, account, positions, openOrders, sized);
    NineCaps(ps, c, sized);
    SameLimits(limits, p, account, positions, openOrders, sized);
    SameRiskQuotient(limits, p, account);
  }

  /** What the configuration constructors accept. */
  predicate InRange(limits: RiskLimits) {
    && 0.0 <= limits.maxDailyLossPct <= 100.0
    && 0.0 <= limits.maxTotalExposurePct <= 100.0
    && 0.0 <= limits.maxSinglePositionPct <= 100.0
    && 0 <= limits.maxOpenPositions && 0.0 <= limits.minimumPrice && 0.0 <= limits.minimumRewardRisk
  }

  /** The code a preview rejection carries, by its reason; running out of shares
    * carries none. */
  function CodeOf(reason: Reason): Option<Code> {
    match reason
    case PriceBelowMinimum(_) => Some(MINIMUM_PRICE)
    case RewardRiskBelow(_, _) => Some(MINIMUM_REWARD_RISK)
    case PositionCountReached => Some(MAX_OPEN_POSITIONS)
    case PositionExists => Some(DUPLICATE_POSITION)
    case OpenOrderExists => Some(DUPLICATE_ORDER)
    case DailyLossLock => Some(MAX_DAILY_LOSS)
    case _ => None
  }

  /** The plan says what the legacy evaluation says, orders its quantity at the
    * proposal's price, and codes its first reason. */
  predicate Agrees(plan: TradePlan, legacy: RiskDecision, p: TradeProposal) {
    && plan.approved == legacy.approved
    && plan.sizing.quantity == legacy.quantity
    && plan.reasons == legacy.reasons
    && plan.sizing.positionValue == legacy.capitalRequired
    && plan.sizing.dollarRisk == legacy.maximumLoss
    && plan.request == (if legacy.quantity == 0 then None
                        else Some(TradeRequest(p.symbol, legacy.quantity, p.entryPrice)))
    && plan.riskCode == (if legacy.reasons == [] then None else CodeOf(legacy.reasons[0]))
  }

  /** The preview planner and the legacy evaluation agree on approval, quantity,
    * order, capital, loss, code and the ordered list of reasons for every
    * well-formed buy. */
  lemma PreviewMatchesLegacy(limits: RiskLimits, p: TradeProposal, account: AccountSnapshot,
                             positions: seq<BrokerPosition>, openOrders: set<string>)
    requires WellFormedBuy(p) && account.equity > 0.0
    requires 0.0 < limits.riskPerTradePct <= 100.0 && InRange(limits)
    ensures var planned := PreviewPlan(limits, p, account, positions, openOrders);
            var legacy := LegacyDecision(limits, p, account, positions, openOrders);
            && planned.Ok? && legacy.Some?
            && (legacy.value.approved <==> legacy.value.reasons == [])
            && Agrees(planned.value, legacy.value, p)
  {
    hide Planned, GrossExposure, RiskQuantity, LegacyQuantity, LegacyReasons, CodeOf, Sized, PlanByLaw;
    SamePlan(limits, p, account, positions, openOrders);
    PreviewCodes(limits, p, account, positions, openOrders);
    PreviewOrders(limits, p, account, positions, openOrders);
    LegacyIs(limits, p, account, positions, openOrders);
  }

  /** Quantity and ordered reasons of the plan are the legacy ones. */
  lemma SamePlan(limits: RiskLimits, p: TradeProposal, account: AccountSnapshot,
                 positions: seq<BrokerPosition>, openOrders: set<string>)
    requires WellFormedBuy(p) && account.equity > 0.0
    requires 0.0 < limits.riskPerTradePct <= 100.0 && InRange(limits)
    ensures var planned := PreviewPlan(limits, p, account, positions, openOrders);
            var quantity := LegacyQuantity(limits, p, account, GrossExposure(positions));
            && planned.Ok?
            && planned.value.reasons == LegacyReasons(limits, p, account, positions, openOrders, quantity)
            && planned.value.approved == (planned.value.reasons == [])
            && planned.value.sizing.quantity == quantity
  {
    hide Decisions, Capped, Rejections, Explanations, GrossExposure, Evaluate, RiskQuantity, LegacyQuantity,
         LegacyReasons, Texts, Concluded;
    var ps := PreviewParity(ToParityConfig(limits)).policies;
    var sized := RiskQuantity(account.equity, ToIntent(p), limits.riskPerTradePct / 100.0);
    var c := PreviewContext(limits, p, account, positions, openOrders, sized);
    var quantity := LegacyQuantity(limits, p, account, GrossExposure(positions));
    SameQuantity(limits, p, account, positions, openOrders);
    SameReasons(limits, p, account, positions, openOrders, sized, quantity);
    AllRejections([], ps, c);
    assert [] + Explanations(Rejections(Decisions(ps, c, true))) == Explanations(Rejections(Decisions(ps, c, true)));
    Concludes(PreviewParity(ToParityConfig(limits)), ToIntent(p), sized, Decisions(ps, c, true));
  }

  /** A preview plan orders what it sizes, at the proposal's price. */
  lemma PreviewOrders(limits: RiskLimits, p: TradeProposal, account: AccountSnapshot,
                      positions: seq<BrokerPosition>, openOrders: set<string>)
    requires WellFormedBuy(p) && account.equity > 0.0 && 0.0 < limits.riskPerTradePct <= 100.0
    ensures var planned := PreviewPlan(limits, p, account, positions, openOrders);
            && planned.Ok?
            && var plan := planned.value;
               && plan.request == (if plan.sizing.quantity == 0 then None
                                   else Some(TradeRequest(p.symbol, plan.sizing.quantity, p.entryPrice)))
               && plan.sizing.positionValue == plan.sizing.quantity as real * p.entryPrice
               && plan.sizing.dollarRisk == plan.sizing.quantity as real * (p.entryPrice - p.stopPrice)
  {
    hide Planned, GrossExposure, Holdings, RiskQuantity, AskedInOrder, LeastLimit, AnswersFor;
    PlansByLaw(PreviewParity(ToParityConfig(limits)), limits.riskPerTradePct / 100.0, BrokerView(account, positions),
               ToIntent(p), Some(p.targetPrice), openOrders);
    assert ToIntent(p).RiskPerShare() == p.entryPrice - p.stopPrice;
  }

  /** The legacy decision on a well-formed buy. */
  lemma LegacyIs(limits: RiskLimits, p: TradeProposal, account: AccountSnapshot,
                 positions: seq<BrokerPosition>, openOrders: set<string>)
    requires WellFormedBuy(p)
    ensures var legacy := LegacyDecision(limits, p, account, positions, openOrders);
            var quantity := LegacyQuantity(limits, p, account, GrossExposure(positions));
            && legacy.Some? && legacy.value.quantity == quantity
            && legacy.value.reasons == LegacyReasons(limits, p, account, positions, openOrders, quantity)
            && legacy.value.approved == (legacy.value.reasons == [])
            && legacy.value.capitalRequired == quantity as real * p.entryPrice
            && legacy.value.maximumLoss == quantity as real * (p.entryPrice - p.stopPrice)
  {
    hide LegacyQuantity, LegacyReasons, GrossExposure, LegacyRewardRisk;
  }

  /** The code of a preview plan is that of its first reason. */
  lemma PreviewCodes(limits: RiskLimits, p: TradeProposal, account: AccountSnapshot,
                     positions: seq<BrokerPosition>, openOrders: set<string>)
    requires WellFormedBuy(p) && account.equity > 0.0 && 0.0 < limits.riskPerTradePct <= 100.0
    ensures var planned := PreviewPlan(limits, p, account, positions, openOrders);
            planned.Ok?
            && (planned.value.approved <==> planned.value.reasons == [])
            && planned.value.riskCode
               == if planned.value.approved then None else CodeOf(planned.value.reasons[0])
  {
    hide Planned, Evaluate, GrossExposure, Holdings, RiskQuantity, LeastLimit, OrdersItsSize, CodeOf, AskedInOrder,
         AnswersFor;
    var policySet := PreviewParity(ToParityConfig(limits));
    var view := BrokerView(account, positions);
    PlansByLaw(policySet, limits.riskPerTradePct / 100.0, view, ToIntent(p), Some(p.targetPrice), openOrders);
    var plan := PreviewPlan(limits, p, account, positions, openOrders).value;
    var c := Context(view, ToIntent(p), RiskQuantity(view.equity, ToIntent(p), limits.riskPerTradePct / 100.0),
                     Some(p.targetPrice), openOrders);
    CodesOfAnswers(limits, policySet, plan, c);
  }

  lemma CodesOfAnswers(limits: RiskLimits, policySet: PolicySet, plan: TradePlan, c: Context)
    requires policySet == PreviewParity(ToParityConfig(limits)) && c.intent.Valid() && c.target.Some?
    requires AnswersFor(policySet, plan) && AskedInOrder(policySet.policies, c, true, plan.decisions)
    ensures plan.approved <==> plan.reasons == []
    ensures plan.riskCode == if plan.approved then None else CodeOf(plan.reasons[0])
  {
    hide Evaluate, AskedInOrder, CodeOf, PreviewParity;
    FirstToRejectExists(plan.decisions);
    if i :| FirstToReject(plan.decisions, i) {
      AskedAt(policySet.policies, c, plan.decisions, i);
      PreviewCode(limits, c, i);
    } else {
      NoSharesNoCode();
      ZeroReason(limits);
    }
  }

  lemma ZeroReason(limits: RiskLimits)
    ensures PreviewParity(ToParityConfig(limits)).zeroQuantityReason == ZeroShares
  {
  }

  lemma NoSharesNoCode()
    ensures CodeOf(ZeroShares) == None
  {
  }

  lemma AskedAt(policies: seq<Policy>, c: Context, ds: seq<Decision>, i: int)
    requires c.intent.Valid() && AskedInOrder(policies, c, true, ds) && 0 <= i < |ds|
    ensures i < |policies| && ds[i] == Evaluate(policies[i], c)
  {
    hide Evaluate;
  }

  lemma {:induction false} FirstToRejectExists(ds: seq<Decision>)
    ensures AllApprove(ds) || exists i :: FirstToReject(ds, i)
  {
    if ds != [] {
      var n := |ds| - 1;
      FirstToRejectExists(ds[..n]);
      assert forall j :: 0 <= j < n ==> ds[..n][j] == ds[j];
      if i :| FirstToReject(ds[..n], i) {
        assert FirstToReject(ds, i);
      } else if !ds[n].approved {
        assert FirstToReject(ds, n);
      }
    }
  }

  lemma PreviewCode(limits: RiskLimits, c: Context, i: int)
    requires c.intent.Valid() && c.target.Some?
    requires 0 <= i < |PreviewParity(ToParityConfig(limits)).policies|
    requires !Evaluate(PreviewParity(ToParityConfig(limits)).policies[i], c).approved
    ensures var d := Evaluate(PreviewParity(ToParityConfig(limits)).policies[i], c);
            Some(d.code) == CodeOf(d.explanation)
  {
    hide WholeUnits, PositionRoom, ExposureRoom;
  }

  /** An approved preview orders the legacy quantity, and that order costs no more
    * than the buying power, the position limit and the room left under the exposure
    * limit, and risks no more than the risk limit. */
  lemma PreviewOrdersWhatFits(limits: RiskLimits, p: TradeProposal, account: AccountSnapshot,
                              positions: seq<BrokerPosition>, openOrders: set<string>)
    requires WellFormedBuy(p) && account.equity > 0.0
    requires 0.0 < limits.riskPerTradePct <= 100.0 && InRange(limits)
    ensures var planned := PreviewPlan(limits, p, account, positions, openOrders);
            && planned.Ok?
            && (planned.value.request.Some? ==>
                  var order := planned.value.request.value;
                  var legacy := LegacyDecision(limits, p, account, positions, openOrders);
                  && legacy.Some? && order.quantity == legacy.value.quantity >= 1
                  && order.symbol == p.symbol && order.price == p.entryPrice
                  && order.Cost() <= account.buyingPower
                  && order.Cost() <= Percent(account.equity, limits.maxSinglePositionPct)
                  && GrossExposure(positions) + order.Cost() <= Percent(account.equity, limits.maxTotalExposurePct)
                  && order.quantity as real * (p.entryPrice - p.stopPrice)
                     <= Percent(account.equity, limits.riskPerTradePct))
            && (planned.value.approved ==> planned.value.request.Some?)
  {
    hide PreviewPlan, GrossExposure, Percent, LegacyQuantity, LegacyReasons;
    PreviewMatchesLegacy(limits, p, account, positions, openOrders);
    var quantity := LegacyQuantity(limits, p, account, GrossExposure(positions));
    if quantity > 0 {
      QuantityIsGreatest(limits, p, account, GrossExposure(positions), quantity);
    } else {
      NothingIsNotApproved(limits, p, account, positions, openOrders);
    }
  }

  lemma NothingIsNotApproved(limits: RiskLimits, p: TradeProposal, account: AccountSnapshot,
                             positions: seq<BrokerPosition>, openOrders: set<string>)
    ensures LegacyReasons(limits, p, account, positions, openOrders, 0) != []
  {
    hide Holds, Percent, ProposalReasons;
  }

  /** A reason is given, of a proposal with a symbol, exactly when its rule is broken;
    * whatever the proposal, well-formed or not. */
  predicate GivenExactly(reasons: seq<Reason>, limits: RiskLimits, p: TradeProposal, account: AccountSnapshot,
                         positions: seq<BrokerPosition>, openOrders: set<string>, quantity: nat)
  {
    && (LongOnly in reasons <==> limits.longOnly && !p.buys)
    && (PriceBelowMinimum(limits.minimumPrice) in reasons <==> p.entryPrice < limits.minimumPrice)
    && (StopOutOfRange in reasons <==> !(0.0 < p.stopPrice < p.entryPrice))
    && (TargetNotAboveEntry in reasons <==> !(p.targetPrice > p.entryPrice))
    && (NoEquity in reasons <==> account.equity <= 0.0)
    && (RewardRiskBelow(LegacyRewardRisk(p), limits.minimumRewardRisk) in reasons
        <==> LegacyRewardRisk(p) < limits.minimumRewardRisk)
    && (PositionCountReached in reasons <==> |positions| >= limits.maxOpenPositions)
    && (PositionExists in reasons <==> Holds(positions, p.symbol))
    && (OpenOrderExists in reasons <==> p.symbol in openOrders)
    && (DailyLossLock in reasons
        <==> account.dailyPnl <= -(account.equity * limits.maxDailyLossPct / 100.0))
    && (ZeroShares in reasons <==> quantity == 0)
  }

  lemma ReasonsExactly(limits: RiskLimits, p: TradeProposal, account: AccountSnapshot,
                       positions: seq<BrokerPosition>, openOrders: set<string>, quantity: nat)
    ensures GivenExactly(LegacyReasons(limits, p, account, positions, openOrders, quantity), limits, p, account,
                         positions, openOrders, quantity)
  {
    hide Holds, LegacyRewardRisk, ProposalReasons, LegacyReasons;
    ProposalReasonsExactly(limits, p, account);
    AccountReasonsExactly(limits, p, account, positions, openOrders, quantity);
  }

  lemma AccountReasonsExactly(limits: RiskLimits, p: TradeProposal, account: AccountSnapshot,
                              positions: seq<BrokerPosition>, openOrders: set<string>, quantity: nat)
    ensures forall r :: r in LegacyReasons(limits, p, account, positions, openOrders, quantity) <==>
              || r in ProposalReasons(limits, p, account)
              || (r == RewardRiskBelow(LegacyRewardRisk(p), limits.minimumRewardRisk)
                  && LegacyRewardRisk(p) < limits.minimumRewardRisk)
              || (r == PositionCountReached && |positions| >= limits.maxOpenPositions)
              || (r == PositionExists && Holds(positions, p.symbol))
              || (r == OpenOrderExists && p.symbol in openOrders)
              || (r == DailyLossLock && account.dailyPnl <= -Percent(account.equity, limits.maxDailyLossPct))
              || (r == ZeroShares && quantity < 1)
  {
    hide Holds, LegacyRewardRisk, ProposalReasons, Note, Percent;
    var rewardRisk := LegacyRewardRisk(p);
    var r5 := ProposalReasons(limits, p, account);
    var r6 := Note(r5, rewardRisk < limits.minimumRewardRisk, RewardRiskBelow(rewardRisk, limits.minimumRewardRisk));
    var r7 := Note(r6, |positions| >= limits.maxOpenPositions, PositionCountReached);
    var r8 := Note(r7, Holds(positions, p.symbol), PositionExists);
    var r9 := Note(r8, p.symbol in openOrders, OpenOrderExists);
    var r10 := Note(r9, account.dailyPnl <= -Percent(account.equity, limits.maxDailyLossPct), DailyLossLock);
    NoteMembers(r5, rewardRisk < limits.minimumRewardRisk, RewardRiskBelow(rewardRisk, limits.minimumRewardRisk));
    NoteMembers(r6, |positions| >= limits.maxOpenPositions, PositionCountReached);
    NoteMembers(r7, Holds(positions, p.symbol), PositionExists);
    NoteMembers(r8, p.symbol in openOrders, OpenOrderExists);
    NoteMembers(r9, account.dailyPnl <= -Percent(account.equity, limits.maxDailyLossPct), DailyLossLock);
    NoteMembers(r10, quantity < 1, ZeroShares);
  }

  lemma NoteMembers(reasons: seq<Reason>, condition: bool, reason: Reason)
    ensures forall r :: r in Note(reasons, condition, reason) <==> r in reasons || (condition && r == reason)
  {
  }

  lemma ProposalReasonsExactly(limits: RiskLimits, p: TradeProposal, account: AccountSnapshot)
    ensures forall r :: r in ProposalReasons(limits, p, account) <==>
              || (r == LongOnly && limits.longOnly && !p.buys)
              || (r == PriceBelowMinimum(limits.minimumPrice) && p.entryPrice < limits.minimumPrice)
              || (r == StopOutOfRange && !(0.0 < p.stopPrice < p.entryPrice))
              || (r == TargetNotAboveEntry && !(p.targetPrice > p.entryPrice))
              || (r == NoEquity && account.equity <= 0.0)
  {
    hide Note;
    var r1 := Note([], limits.longOnly && !p.buys, LongOnly);
    var r2 := Note(r1, p.entryPrice < limits.minimumPrice, PriceBelowMinimum(limits.minimumPrice));
    var r3 := Note(r2, p.stopPrice <= 0.0 || p.stopPrice >= p.entryPrice, StopOutOfRange);
    var r4 := Note(r3, p.targetPrice <= p.entryPrice, TargetNotAboveEntry);
    NoteMembers([], limits.longOnly && !p.buys, LongOnly);
    NoteMembers(r1, p.entryPrice < limits.minimumPrice, PriceBelowMinimum(limits.minimumPrice));
    NoteMembers(r2, p.stopPrice <= 0.0 || p.stopPrice >= p.entryPrice, StopOutOfRange);
    NoteMembers(r3, p.targetPrice <= p.entryPrice, TargetNotAboveEntry);
    NoteMembers(r4, account.equity <= 0.0, NoEquity);
  }

  /** The place of a reason in the legacy list. */
  function Place(reason: Reason): nat {
    match reason
    case LongOnly => 0
    case PriceBelowMinimum(_) => 1
    case StopOutOfRange => 2
    case TargetNotAboveEntry => 3
    case NoEquity => 4
    case RewardRiskBelow(_, _) => 5
    case PositionCountReached => 6
    case PositionExists => 7
    case OpenOrderExists => 8
    case DailyLossLock => 9
    case _ => 10
  }

  /** In order of place, none twice, and all before place n. */
  predicate PlacedBefore(reasons: seq<Reason>, n: nat) {
    && (forall i, j :: 0 <= i < j < |reasons| ==> Place(reasons[i]) < Place(reasons[j]))
    && (forall i :: 0 <= i < |reasons| ==> Place(reasons[i]) < n)
  }

  lemma NotePlaced(reasons: seq<Reason>, condition: bool, reason: Reason)
    requires PlacedBefore(reasons, Place(reason))
    ensures PlacedBefore(Note(reasons, condition, reason), Place(reason) + 1)
  {
    hide Place;
  }

  /** Each reason stands in its place and none twice, so that with `ReasonsExactly`
    * the list is determined. */
  lemma ReasonsInOrder(limits: RiskLimits, p: TradeProposal, account: AccountSnapshot,
                       positions: seq<BrokerPosition>, openOrders: set<string>, quantity: nat)
    ensures PlacedBefore(LegacyReasons(limits, p, account, positions, openOrders, quantity), 11)
  {
    hide Holds, LegacyRewardRisk, ProposalReasons, Note, Percent, PlacedBefore;
    var rewardRisk := LegacyRewardRisk(p);
    var r5 := ProposalReasons(limits, p, account);
    var r6 := Note(r5, rewardRisk < limits.minimumRewardRisk, RewardRiskBelow(rewardRisk, limits.minimumRewardRisk));
    var r7 := Note(r6, |positions| >= limits.maxOpenPositions, PositionCountReached);
    var r8 := Note(r7, Holds(positions, p.symbol), PositionExists);
    var r9 := Note(r8, p.symbol in openOrders, OpenOrderExists);
    var r10 := Note(r9, account.dailyPnl <= -Percent(account.equity, limits.maxDailyLossPct), DailyLossLock);
    ProposalReasonsInOrder(limits, p, account);
    NotePlaced(r5, rewardRisk < limits.minimumRewardRisk, RewardRiskBelow(rewardRisk, limits.minimumRewardRisk));
    NotePlaced(r6, |positions| >= limits.maxOpenPositions, PositionCountReached);
    NotePlaced(r7, Holds(positions, p.symbol), PositionExists);
    NotePlaced(r8, p.symbol in openOrders, OpenOrderExists);
    NotePlaced(r9, account.dailyPnl <= -Percent(account.equity, limits.maxDailyLossPct), DailyLossLock);
    NotePlaced(r10, quantity < 1, ZeroShares);
  }

  lemma ProposalReasonsInOrder(limits: RiskLimits, p: TradeProposal, account: AccountSnapshot)
    ensures PlacedBefore(ProposalReasons(limits, p, account), 5)
  {
    hide Note, PlacedBefore;
    var r1 := Note([], limits.longOnly && !p.buys, LongOnly);
    var r2 := Note(r1, p.entryPrice < limits.minimumPrice, PriceBelowMinimum(limits.minimumPrice));
    var r3 := Note(r2, p.stopPrice <= 0.0 || p.stopPrice >= p.entryPrice, StopOutOfRange);
    var r4 := Note(r3, p.targetPrice <= p.entryPrice, TargetNotAboveEntry);
    NothingPlaced();
    NotePlaced([], limits.longOnly && !p.buys, LongOnly);
    NotePlaced(r1, p.entryPrice < limits.minimumPrice, PriceBelowMinimum(limits.minimumPrice));
    NotePlaced(r2, p.stopPrice <= 0.0 || p.stopPrice >= p.entryPrice, StopOutOfRange);
    NotePlaced(r3, p.targetPrice <= p.entryPrice, TargetNotAboveEntry);
    NotePlaced(r4, account.equity <= 0.0, NoEquity);
  }

  lemma NothingPlaced()
    ensures PlacedBefore([], 0)
  {
  }

  /** The legacy evaluation approves exactly the affordable, well-priced long buys of
    * new symbols within every limit: at least one share fits. */
  lemma LegacyApprovesExactly(limits: RiskLimits, p: TradeProposal, account: AccountSnapshot,
                              positions: seq<BrokerPosition>, openOrders: set<string>)
    ensures var r := LegacyDecision(limits, p, account, positions, openOrders);
            r.Some? && r.value.approved <==>
              && p.symbol != "" && (limits.longOnly ==> p.buys) && p.entryPrice >= limits.minimumPrice
              && 0.0 < p.stopPrice < p.entryPrice < p.targetPrice && account.equity > 0.0
              && LegacyRewardRisk(p) >= limits.minimumRewardRisk
              && |positions| < limits.maxOpenPositions
              && !Holds(positions, p.symbol) && p.symbol !in openOrders
              && account.dailyPnl > -(account.equity * limits.maxDailyLossPct / 100.0)
              && Fits(limits, p, account, GrossExposure(positions), 1)
  {
    hide Holds, LegacyRewardRisk, GrossExposure, Fits, LegacyQuantity, LegacyReasons;
    if p.symbol != "" && 0.0 < p.stopPrice < p.entryPrice {
      var exposure := GrossExposure(positions);
      OneShareFits(limits, p, account, exposure);
      EmptyReasons(limits, p, account, positions, openOrders, LegacyQuantity(limits, p, account, exposure));
    } else if p.symbol != "" && !(p.entryPrice == 0.0 && p.entryPrice > p.stopPrice) {
      var quantity := if p.entryPrice <= p.stopPrice then 0
                      else LegacyQuantity(limits, p, account, GrossExposure(positions));
      EmptyReasons(limits, p, account, positions, openOrders, quantity);
    }
  }

  lemma OneShareFits(limits: RiskLimits, p: TradeProposal, account: AccountSnapshot, exposure: real)
    requires 0.0 < p.stopPrice < p.entryPrice
    ensures LegacyQuantity(limits, p, account, exposure) >= 1 <==> Fits(limits, p, account, exposure, 1)
  {
    hide Max, Percent, Available, FloorDiv;
    FloorQuotient(Percent(account.equity, limits.riskPerTradePct), p.entryPrice - p.stopPrice, 1);
    FloorQuotient(account.buyingPower, p.entryPrice, 1);
    FloorQuotient(Percent(account.equity, limits.maxSinglePositionPct), p.entryPrice, 1);
    FloorQuotient(Available(limits, account, exposure), p.entryPrice, 1);
    AvailableFits(limits, account, exposure, p.entryPrice);
  }

  /** No rule is broken exactly when no reason is given. */
  lemma EmptyReasons(limits: RiskLimits, p: TradeProposal, account: AccountSnapshot,
                     positions: seq<BrokerPosition>, openOrders: set<string>, quantity: nat)
    ensures LegacyReasons(limits, p, account, positions, openOrders, quantity) == [] <==>
              && (limits.longOnly ==> p.buys) && p.entryPrice >= limits.minimumPrice
              && 0.0 < p.stopPrice < p.entryPrice < p.targetPrice && account.equity > 0.0
              && LegacyRewardRisk(p) >= limits.minimumRewardRisk
              && |positions| < limits.maxOpenPositions
              && !Holds(positions, p.symbol) && p.symbol !in openOrders
              && account.dailyPnl > -(account.equity * limits.maxDailyLossPct / 100.0)
              && quantity >= 1
  {
    hide Holds, LegacyRewardRisk;
  }

  /** What `Concluded` says about the reasons, in one expression. */
  lemma Concludes(policySet: PolicySet, intent: TradeIntent, sized: nat, ds: seq<Decision>)
    requires intent.Valid()
    ensures var plan := Concluded(policySet, intent, sized, ds);
            && plan.reasons == Note(Explanations(Rejections(ds)), Capped(sized, ds) == 0, policySet.zeroQuantityReason)
            && plan.approved == (plan.reasons == [])
            && plan.sizing == Sized(intent, Capped(sized, ds))
  {
    hide Capped, Rejections, Explanations;
    assert Explanations(Rejections(ds)) + [] == Explanations(Rejections(ds));
  }

  /** n shares respect all four limits. */
  predicate Fits(limits: RiskLimits, p: TradeProposal, account: AccountSnapshot, exposure: real, n: nat) {
    && n as real * (p.entryPrice - p.stopPrice) <= Percent(account.equity, limits.riskPerTradePct)
    && n as real * p.entryPrice <= account.buyingPower
    && n as real * p.entryPrice <= Percent(account.equity, limits.maxSinglePositionPct)
    && exposure + n as real * p.entryPrice <= Percent(account.equity, limits.maxTotalExposurePct)
  }

  /** The agreed quantity is the greatest number of shares within the risk,
    * buying-power, position and exposure limits; 0 when not even one fits. */
  lemma QuantityIsGreatest(limits: RiskLimits, p: TradeProposal, account: AccountSnapshot, exposure: real, n: nat)
    requires WellFormedBuy(p) && n >= 1
    ensures n <= LegacyQuantity(limits, p, account, exposure) <==> Fits(limits, p, account, exposure, n)
  {
    hide Max, Percent, Available, FloorDiv;
    FloorQuotient(Percent(account.equity, limits.riskPerTradePct), p.entryPrice - p.stopPrice, n);
    FloorQuotient(account.buyingPower, p.entryPrice, n);
    FloorQuotient(Percent(account.equity, limits.maxSinglePositionPct), p.entryPrice, n);
    FloorQuotient(Available(limits, account, exposure), p.entryPrice, n);
    AvailableFits(limits, account, exposure, n as real * p.entryPrice);
    ScaleStrict(0.0, n as real, p.entryPrice);
  }

  lemma AvailableFits(limits: RiskLimits, account: AccountSnapshot, exposure: real, cost: real)
    requires cost > 0.0
    ensures cost <= Available(limits, account, exposure)
            <==> exposure + cost <= Percent(account.equity, limits.maxTotalExposurePct)
  {
    hide Percent;
  }
}
