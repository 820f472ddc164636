/** Position sizing and ranked allocation of the Global Rotation strategy
  * (global_rotation/risk.py, global_rotation/engine.py). What scoring computes from
  * market data is a record of facts that does not read the portfolio; symbols stand
  * for their normalized form.
  */
module Rotation {
  import opened Wrappers
  import opened Money

  datatype RiskPolicy = RiskPolicy(
    maximumLoss: real,
    maximumRiskFraction: real,
    maximumDailyLossFraction: real,
    maximumPositionFraction: real,
    maximumExposureFraction: real,
    qualificationPositionCap: real,
    qualificationMaxOpenPositions: int,
    matureMaxOpenPositions: int)
  {
    /** What the constructor accepts. */
    predicate Valid() {
      && maximumLoss > 0.0
      && 0.0 < maximumRiskFraction <= 1.0
      && 0.0 < maximumDailyLossFraction <= 1.0
      && 0.0 < maximumPositionFraction <= 1.0
      && 0.0 < maximumExposureFraction <= 1.0
      && qualificationPositionCap > 0.0
      && 1 <= qualificationMaxOpenPositions <= matureMaxOpenPositions
    }
  }

  predicate Distinct(symbols: seq<string>) {
    forall i, j :: 0 <= i < j < |symbols| ==> symbols[i] != symbols[j]
  }

  /** None is an unverified value. */
  datatype Portfolio = Portfolio(
    equity: real,
    buyingPower: real,
    currentExposure: Option<real>,
    realizedLossToday: Option<real>,
    openSymbols: Option<seq<string>>,
    qualificationPhase: Option<bool>)
  {
    /** What the constructor accepts. */
    predicate Valid() {
      && equity > 0.0 && buyingPower >= 0.0
      && (currentExposure.Some? ==> currentExposure.value >= 0.0)
      && (realizedLossToday.Some? ==> realizedLossToday.value >= 0.0)
      && (openSymbols.Some? ==> "" !in openSymbols.value && Distinct(openSymbols.value))
    }

    function Open(): seq<string> { if openSymbols.Some? then openSymbols.value else [] }
  }

  datatype Blocker =
    | EduBelowMinimum
    | GuardianRejects
    | Market(rule: int)
    | ExposureUnverified
    | LossUnverified
    | PositionsUnverified
    | PhaseUnverified
    | DuplicateSymbol
    | MaximumPositions
    | DailyLossLock
    | NoCapacity
    | CannotFundMinimum

  /** What `_evaluate` computes without reading the portfolio. `market` lists the
    * blockers other than the two scanners'; `score` adds the two scanners' scores. */
  datatype Facts = Facts(
    symbol: string,
    eduPass: bool,
    volcanoPass: bool,
    market: seq<Blocker>,
    chasing: bool,
    entry: real,
    stop: real,
    target: real,
    fractional: bool,
    score: int,
    rewardRisk: real)
  {
    predicate PricesValid() {
      symbol != "" && entry > 0.0 && 0.0 <= stop < entry && entry < target
    }

    function Upstream(): seq<Blocker> {
      Note(Note([], !eduPass, EduBelowMinimum), !volcanoPass, GuardianRejects) + market
    }

    /** The facts `_evaluate` turns into a candidate: a scanner passed, and sizing,
      * if reached, accepts the prices. */
    predicate Usable() {
      (eduPass || volcanoPass) && (Upstream() == [] ==> PricesValid())
    }
  }

  function Note(blockers: seq<Blocker>, condition: bool, blocker: Blocker): seq<Blocker> {
    if condition then blockers + [blocker] else blockers
  }

  datatype Size = Size(riskBudget: real, quantity: real, reserved: real, plannedLoss: real, targetProfit: real,
                       blockers: seq<Blocker>)

  // ---- Sizing ------------------------------------------------------------------

  function RiskBudget(p: Portfolio, policy: RiskPolicy): real {
    Min(policy.maximumLoss, p.equity * policy.maximumRiskFraction)
  }

  /** Only a phase verified as false uses the mature limits. */
  predicate Mature(p: Portfolio) { p.qualificationPhase == Some(false) }

  function PositionLimit(p: Portfolio, policy: RiskPolicy): int {
    if Mature(p) then policy.matureMaxOpenPositions else policy.qualificationMaxOpenPositions
  }

  function ExposureLimit(p: Portfolio, policy: RiskPolicy): real { p.equity * policy.maximumExposureFraction }

  function ExposureCapacity(p: Portfolio, policy: RiskPolicy): real {
    if p.currentExposure.None? then 0.0
    else Max(0.0, ExposureLimit(p, policy) - p.currentExposure.value)
  }

  function PositionFunds(p: Portfolio, policy: RiskPolicy): real { p.equity * policy.maximumPositionFraction }

  function PositionCap(p: Portfolio, policy: RiskPolicy): real {
    var cap := Min(Min(PositionFunds(p, policy), p.buyingPower), ExposureCapacity(p, policy));
    if Mature(p) then cap else Min(cap, policy.qualificationPositionCap)
  }

  /** Truncation to six decimals or to a whole number. */
  function RoundedDown(q: real, fractional: bool): real {
    if fractional then Truncated(q * 1000000.0) as real / 1000000.0 else Truncated(q) as real
  }

  function Truncated(q: real): int {
    if q >= 0.0 then q.Floor else -((-q).Floor)
  }

  function RawQuantity(f: Facts, p: Portfolio, policy: RiskPolicy): real
    requires f.PricesValid()
  {
    RoundedDown(Min(RiskBudget(p, policy) / (f.entry - f.stop), PositionCap(p, policy) / f.entry), f.fractional)
  }

  function TruthBlockers(p: Portfolio): seq<Blocker> {
    Note(Note(Note(Note([], p.currentExposure.None?, ExposureUnverified),
                   p.realizedLossToday.None?, LossUnverified),
              p.openSymbols.None?, PositionsUnverified),
         p.qualificationPhase.None?, PhaseUnverified)
  }

  predicate LossLocked(p: Portfolio, policy: RiskPolicy) {
    p.realizedLossToday.Some? && p.realizedLossToday.value >= p.equity * policy.maximumDailyLossFraction
  }

  function SizeBlockers(symbol: string, p: Portfolio, policy: RiskPolicy): seq<Blocker> {
    var full := |p.Open()| >= PositionLimit(p, policy);
    var counted := if symbol in p.Open() then TruthBlockers(p) + [DuplicateSymbol]
                   else Note(TruthBlockers(p), full, MaximumPositions);
    Note(Note(counted, LossLocked(p, policy), DailyLossLock), PositionCap(p, policy) <= 0.0, NoCapacity)
  }

  function SizeOf(f: Facts, riskBudget: real, quantity: real, blockers: seq<Blocker>): Size {
    Size(riskBudget, quantity, quantity * f.entry, quantity * (f.entry - f.stop), quantity * (f.target - f.entry),
         blockers)
  }

  function Sized(f: Facts, p: Portfolio, policy: RiskPolicy): Size
    requires f.PricesValid()
  {
    var raw := RawQuantity(f, p, policy);
    var found := SizeBlockers(f.symbol, p, policy);
    var blockers := Note(found, raw <= 0.0 && found == [], CannotFundMinimum);
    var quantity := if blockers != [] || raw <= 0.0 then 0.0 else raw;
    SizeOf(f, RiskBudget(p, policy), quantity, blockers)
  }

  /** `size_paper_position`: blockers appended in order, the cap lowered in the
    * qualification phase, the quantity zeroed when anything blocks. */
  method SizePaperPosition(f: Facts, p: Portfolio, policy: RiskPolicy) returns (r: Option<Size>)
    requires p.Valid()
    ensures r == if f.PricesValid() then Some(Sized(f, p, policy)) else None
    ensures r.Some? && policy.Valid() ==>
              SizedByLaw(f, p, policy, r.value) && BlockedExactly(f, p, policy, r.value.blockers)
  {
    hide RoundedDown, RiskBudget, PositionCap, SizeBlockers, SizeOf, SizedByLaw, BlockedExactly, RiskPolicy.Valid;
    if f.PricesValid() && policy.Valid() {
      SizesByLaw(f, p, policy);
      BlocksExactly(f, p, policy);
    }
    if f.symbol == "" || f.entry <= 0.0 || !(0.0 <= f.stop < f.entry) || f.target <= f.entry {
      return None;
    }
    var riskBudget := RiskBudget(p, policy);
    var cap, blockers := GatherBlockers(f.symbol, p, policy);
    var quantity := RoundedDown(Min(riskBudget / (f.entry - f.stop), cap / f.entry), f.fractional);
    if quantity <= 0.0 && blockers == [] {
      blockers := blockers + [CannotFundMinimum];
    }
    if blockers != [] || quantity <= 0.0 {
      quantity := 0.0;
    }
    r := Some(SizeOf(f, riskBudget, quantity, blockers));
  }

  method GatherBlockers(symbol: string, p: Portfolio, policy: RiskPolicy) returns (cap: real, blockers: seq<Blocker>)
    ensures cap == PositionCap(p, policy) && blockers == SizeBlockers(symbol, p, policy)
  {
    hide TruthBlockers, LossLocked, ExposureCapacity;
    blockers := TruthBlockers(p);
    var maxPositions := if p.qualificationPhase != Some(false) then policy.qualificationMaxOpenPositions
                        else policy.matureMaxOpenPositions;
    if symbol in p.Open() {
      blockers := blockers + [DuplicateSymbol];
    } else if |p.Open()| >= maxPositions {
      blockers := blockers + [MaximumPositions];
    }
    if LossLocked(p, policy) {
      blockers := blockers + [DailyLossLock];
    }
    cap := Min(Min(PositionFunds(p, policy), p.buyingPower), ExposureCapacity(p, policy));
    if p.qualificationPhase != Some(false) {
      cap := Min(cap, policy.qualificationPositionCap);
    }
    if cap <= 0.0 {
      blockers := blockers + [NoCapacity];
    }
  }

  // ---- What sizing keeps -------------------------------------------------------

  lemma TruncatedBelow(q: real)
    requires q >= 0.0
    ensures 0.0 <= Truncated(q) as real <= q
  {
  }

  lemma TruncatedGrows(q: real, r: real)
    requires 0.0 <= q <= r
    ensures Truncated(q) <= Truncated(r)
  {
  }

  lemma RoundedBelow(q: real, fractional: bool)
    requires q >= 0.0
    ensures 0.0 <= RoundedDown(q, fractional) <= q
  {
    hide Truncated;
    TruncatedBelow(q);
    TruncatedBelow(q * 1000000.0);
  }

  lemma RoundedGrows(q: real, r: real, fractional: bool)
    requires 0.0 <= q <= r
    ensures RoundedDown(q, fractional) <= RoundedDown(r, fractional)
  {
    hide Truncated;
    TruncatedGrows(q, r);
    TruncatedGrows(q * 1000000.0, r * 1000000.0);
  }

  lemma CapNotNegative(p: Portfolio, policy: RiskPolicy)
    requires p.Valid() && policy.Valid()
    ensures PositionCap(p, policy) >= 0.0 && RiskBudget(p, policy) > 0.0
  {
    ScaleStrict(0.0, p.equity, policy.maximumPositionFraction);
    ScaleStrict(0.0, p.equity, policy.maximumRiskFraction);
  }

  lemma DividedTimes(total: real, unit: real, q: real)
    requires unit > 0.0 && total >= 0.0
    ensures total / unit >= 0.0
    ensures q <= total / unit ==> q * unit <= total
  {
    if q <= total / unit {
      Scale(q, total / unit, unit);
    }
  }

  /** The quantity spends no more than the position cap and risks no more than the
    * risk budget. */
  lemma QuantityFits(f: Facts, p: Portfolio, policy: RiskPolicy)
    requires f.PricesValid() && p.Valid() && policy.Valid()
    ensures var q := RawQuantity(f, p, policy);
            && q >= 0.0
            && q * f.entry <= PositionCap(p, policy)
            && q * (f.entry - f.stop) <= RiskBudget(p, policy)
  {
    hide PositionCap, RiskBudget, RoundedDown;
    CapNotNegative(p, policy);
    var q := RawQuantity(f, p, policy);
    var byRisk, byNotional := RiskBudget(p, policy) / (f.entry - f.stop), PositionCap(p, policy) / f.entry;
    DividedTimes(RiskBudget(p, policy), f.entry - f.stop, q);
    DividedTimes(PositionCap(p, policy), f.entry, q);
    RoundedBelow(Min(byRisk, byNotional), f.fractional);
  }

  /** The smallest tradable step of an instrument. */
  function Tick(fractional: bool): real { if fractional then 0.000001 else 1.0 }

  lemma TicksFit(q: real, fractional: bool, n: nat)
    requires q >= 0.0
    ensures n as real * Tick(fractional) <= RoundedDown(q, fractional) <==> n as real * Tick(fractional) <= q
  {
    if fractional {
      assert n as real * 0.000001 <= q <==> n as real <= q * 1000000.0;
      assert n as real <= q * 1000000.0 <==> n <= (q * 1000000.0).Floor;
    } else {
      assert n as real <= q <==> n <= q.Floor;
    }
  }

  lemma DividedFits(total: real, unit: real, q: real)
    requires unit > 0.0
    ensures q <= total / unit <==> q * unit <= total
  {
    assert total / unit * unit == total;
    if q <= total / unit {
      Scale(q, total / unit, unit);
    } else {
      ScaleStrict(total / unit, q, unit);
    }
  }

  /** The quantity is the greatest number of ticks that respects both the risk
    * budget and the position cap. */
  lemma QuantityIsGreatest(f: Facts, p: Portfolio, policy: RiskPolicy, n: nat)
    requires f.PricesValid() && p.Valid() && policy.Valid()
    ensures var q := n as real * Tick(f.fractional);
            q <= RawQuantity(f, p, policy) <==>
              q * (f.entry - f.stop) <= RiskBudget(p, policy) && q * f.entry <= PositionCap(p, policy)
  {
    hide PositionCap, RiskBudget, RoundedDown, Tick;
    CapNotNegative(p, policy);
    var q := n as real * Tick(f.fractional);
    DividedTimes(RiskBudget(p, policy), f.entry - f.stop, q);
    DividedTimes(PositionCap(p, policy), f.entry, q);
    DividedFits(RiskBudget(p, policy), f.entry - f.stop, q);
    DividedFits(PositionCap(p, policy), f.entry, q);
    TicksFit(Min(RiskBudget(p, policy) / (f.entry - f.stop), PositionCap(p, policy) / f.entry), f.fractional, n);
  }

  /** A size is non-zero exactly when nothing blocks it, and every figure stays
    * within its limit. */
  lemma SizedFacts(f: Facts, p: Portfolio, policy: RiskPolicy)
    requires f.PricesValid() && p.Valid() && policy.Valid()
    ensures var s := Sized(f, p, policy);
            && (s.quantity > 0.0 <==> s.blockers == [])
            && (s.quantity == 0.0 <==> s.blockers != [])
            && 0.0 <= s.reserved <= PositionCap(p, policy)
            && 0.0 <= s.plannedLoss <= s.riskBudget
            && (s.blockers == [] ==> s.reserved > 0.0)
            && (s.blockers == [] ==> SizeBlockers(f.symbol, p, policy) == [])
  {
    hide RawQuantity, PositionCap, RiskBudget, SizeBlockers;
    QuantityFits(f, p, policy);
    CapNotNegative(p, policy);
    var raw := RawQuantity(f, p, policy);
    if raw > 0.0 {
      ScaleStrict(0.0, raw, f.entry);
      ScaleStrict(0.0, raw, f.entry - f.stop);
    }
  }

  /** Nothing blocks sizing: the portfolio is fully verified, the symbol is new and
    * there is a free place. */
  lemma NothingBlocks(symbol: string, p: Portfolio, policy: RiskPolicy)
    requires SizeBlockers(symbol, p, policy) == []
    ensures p.currentExposure.Some? && p.realizedLossToday.Some?
    ensures p.openSymbols.Some? && p.qualificationPhase.Some?
    ensures symbol !in p.openSymbols.value && |p.openSymbols.value| < PositionLimit(p, policy)
    ensures !LossLocked(p, policy) && PositionCap(p, policy) > 0.0
  {
    hide PositionLimit, LossLocked, PositionCap;
  }

  lemma BlockedIff(symbol: string, p: Portfolio, policy: RiskPolicy)
    ensures SizeBlockers(symbol, p, policy) == [] <==>
            && p.currentExposure.Some? && p.realizedLossToday.Some?
            && p.openSymbols.Some? && p.qualificationPhase.Some?
            && symbol !in p.Open() && |p.Open()| < PositionLimit(p, policy)
            && !LossLocked(p, policy) && PositionCap(p, policy) > 0.0
  {
    hide PositionLimit, LossLocked, PositionCap;
  }

  // ---- The size in the policy's own amounts ------------------------------------------

  /** An amount is within the risk budget exactly when it is within both risk limits. */
  lemma BudgetExactly(p: Portfolio, policy: RiskPolicy, x: real)
    ensures x <= RiskBudget(p, policy) <==> x <= policy.maximumLoss && x <= p.equity * policy.maximumRiskFraction
  {
  }

  /** An amount is within the position cap exactly when it is within the position
    * limit, the buying power, the room under the exposure limit, and, unless the
    * qualification phase is known to be over, the qualification cap; there is no room
    * under an unverified exposure. */
  lemma CapExactly(p: Portfolio, policy: RiskPolicy, x: real)
    ensures x <= PositionCap(p, policy) <==>
              && x <= p.equity * policy.maximumPositionFraction
              && x <= p.buyingPower
              && (x <= 0.0 || (p.currentExposure.Some?
                               && p.currentExposure.value + x <= p.equity * policy.maximumExposureFraction))
              && (p.qualificationPhase == Some(false) || x <= policy.qualificationPositionCap)
  {
  }

  /** A quantity is a whole number of ticks. */
  lemma WholeTicks(q: real, fractional: bool) returns (n: nat)
    requires q >= 0.0
    ensures RoundedDown(q, fractional) == n as real * Tick(fractional)
  {
    n := if fractional then (q * 1000000.0).Floor else q.Floor;
  }

  /** What n ticks lose down to the stop, and what they cost. */
  function LossOf(f: Facts, n: nat): real { n as real * Tick(f.fractional) * (f.entry - f.stop) }

  function CostOf(f: Facts, n: nat): real { n as real * Tick(f.fractional) * f.entry }

  /** n ticks respect every limit the policy sets on one position. */
  predicate TicksRespect(f: Facts, p: Portfolio, policy: RiskPolicy, n: nat) {
    var loss, cost := LossOf(f, n), CostOf(f, n);
    && loss <= policy.maximumLoss && loss <= p.equity * policy.maximumRiskFraction
    && cost <= p.equity * policy.maximumPositionFraction
    && cost <= p.buyingPower
    && (cost <= 0.0 || (p.currentExposure.Some?
                        && p.currentExposure.value + cost <= p.equity * policy.maximumExposureFraction))
    && (p.qualificationPhase == Some(false) || cost <= policy.qualificationPositionCap)
  }

  /** Every figure of a size that nothing blocks: the quantity is the greatest number
    * of ticks that respects the policy, and cost, loss and profit are that quantity
    * at the entry, down to the stop and up to the target. */
  ghost predicate SizedByLaw(f: Facts, p: Portfolio, policy: RiskPolicy, s: Size) {
    && (s.blockers == [] ==>
          exists n: nat ::
            && n >= 1 && s.quantity == n as real * Tick(f.fractional)
            && TicksRespect(f, p, policy, n)
            && forall m: nat :: TicksRespect(f, p, policy, m) ==> m <= n)
    && (s.blockers != [] ==> s.quantity == 0.0)
    && s.reserved == s.quantity * f.entry
    && s.plannedLoss == s.quantity * (f.entry - f.stop)
    && s.targetProfit == s.quantity * (f.target - f.entry)
  }

  lemma SizesByLaw(f: Facts, p: Portfolio, policy: RiskPolicy)
    requires f.PricesValid() && p.Valid() && policy.Valid()
    ensures SizedByLaw(f, p, policy, Sized(f, p, policy))
  {
    hide RawQuantity, PositionCap, RiskBudget, SizeBlockers, TicksRespect, Tick;
    var raw := RawQuantity(f, p, policy);
    SizedFacts(f, p, policy);
    if Sized(f, p, policy).blockers == [] {
      var n := RawTicks(f, p, policy);
      RawRespects(f, p, policy, n);
      forall m: nat | TicksRespect(f, p, policy, m) ensures m <= n {
        RawRespects(f, p, policy, m);
        FewerTicks(m, n, f.fractional);
      }
      SomeTicks(n, f.fractional);
    }
  }

  lemma FewerTicks(m: nat, n: nat, fractional: bool)
    requires m as real * Tick(fractional) <= n as real * Tick(fractional)
    ensures m <= n
  {
  }

  lemma SomeTicks(n: nat, fractional: bool)
    ensures n as real * Tick(fractional) > 0.0 ==> n >= 1
  {
  }

  lemma RawTicks(f: Facts, p: Portfolio, policy: RiskPolicy) returns (n: nat)
    requires f.PricesValid() && p.Valid() && policy.Valid()
    ensures RawQuantity(f, p, policy) == n as real * Tick(f.fractional)
  {
    hide PositionCap, RiskBudget, RoundedDown, Tick;
    CapNotNegative(p, policy);
    DividedTimes(RiskBudget(p, policy), f.entry - f.stop, 0.0);
    DividedTimes(PositionCap(p, policy), f.entry, 0.0);
    n := WholeTicks(Min(RiskBudget(p, policy) / (f.entry - f.stop), PositionCap(p, policy) / f.entry), f.fractional);
  }

  /** The raw quantity is at least n ticks exactly when n ticks respect the policy. */
  lemma RawRespects(f: Facts, p: Portfolio, policy: RiskPolicy, n: nat)
    requires f.PricesValid() && p.Valid() && policy.Valid()
    ensures n as real * Tick(f.fractional) <= RawQuantity(f, p, policy) <==> TicksRespect(f, p, policy, n)
  {
    hide RawQuantity, PositionCap, RiskBudget, Tick, LossOf, CostOf;
    RawFits(f, p, policy, n);
    BudgetExactly(p, policy, LossOf(f, n));
    CapExactly(p, policy, CostOf(f, n));
  }

  lemma RawFits(f: Facts, p: Portfolio, policy: RiskPolicy, n: nat)
    requires f.PricesValid() && p.Valid() && policy.Valid()
    ensures n as real * Tick(f.fractional) <= RawQuantity(f, p, policy) <==>
              LossOf(f, n) <= RiskBudget(p, policy) && CostOf(f, n) <= PositionCap(p, policy)
  {
    hide RawQuantity, PositionCap, RiskBudget, Tick;
    QuantityIsGreatest(f, p, policy, n);
  }

  /** The place of a sizing blocker in the list. */
  function Place(b: Blocker): nat {
    match b
    case ExposureUnverified => 0
    case LossUnverified => 1
    case PositionsUnverified => 2
    case PhaseUnverified => 3
    case DuplicateSymbol => 4
    case MaximumPositions => 5
    case DailyLossLock => 6
    case NoCapacity => 7
    case _ => 8
  }

  /** In order of place, none twice, and all before place n. */
  ghost predicate InPlace(blockers: seq<Blocker>, n: nat) {
    && (forall i, j :: 0 <= i < j < |blockers| ==> Place(blockers[i]) < Place(blockers[j]))
    && (forall i :: 0 <= i < |blockers| ==> Place(blockers[i]) < n)
  }

  /** Each blocker stands in the list exactly when its condition holds. */
  ghost predicate BlockedExactly(f: Facts, p: Portfolio, policy: RiskPolicy, blockers: seq<Blocker>) {
    var limit := if p.qualificationPhase == Some(false) then policy.matureMaxOpenPositions
                 else policy.qualificationMaxOpenPositions;
    && (ExposureUnverified in blockers <==> p.currentExposure.None?)
    && (LossUnverified in blockers <==> p.realizedLossToday.None?)
    && (PositionsUnverified in blockers <==> p.openSymbols.None?)
    && (PhaseUnverified in blockers <==> p.qualificationPhase.None?)
    && (DuplicateSymbol in blockers <==> f.symbol in p.Open())
    && (MaximumPositions in blockers <==> f.symbol !in p.Open() && |p.Open()| >= limit)
    && (DailyLossLock in blockers <==>
          p.realizedLossToday.Some? && p.realizedLossToday.value >= p.equity * policy.maximumDailyLossFraction)
    && (NoCapacity in blockers <==> PositionCap(p, policy) <= 0.0)
    && (CannotFundMinimum in blockers <==> blockers == [CannotFundMinimum])
    && InPlace(blockers, 9)
  }

  lemma NoteInPlace(blockers: seq<Blocker>, condition: bool, b: Blocker, n: nat)
    requires InPlace(blockers, Place(b)) && n > Place(b)
    ensures InPlace(Note(blockers, condition, b), n)
    ensures forall x :: x in Note(blockers, condition, b) <==> x in blockers || (condition && x == b)
  {
    hide Place;
  }

  lemma Places()
    ensures InPlace([], 0)
    ensures Place(ExposureUnverified) == 0 && Place(LossUnverified) == 1 && Place(PositionsUnverified) == 2
    ensures Place(PhaseUnverified) == 3 && Place(DuplicateSymbol) == 4 && Place(MaximumPositions) == 5
    ensures Place(DailyLossLock) == 6 && Place(NoCapacity) == 7 && Place(CannotFundMinimum) == 8
  {
  }

  lemma TruthInPlace(p: Portfolio)
    ensures InPlace(TruthBlockers(p), 4)
    ensures forall x :: x in TruthBlockers(p) <==>
              || (x == ExposureUnverified && p.currentExposure.None?)
              || (x == LossUnverified && p.realizedLossToday.None?)
              || (x == PositionsUnverified && p.openSymbols.None?)
              || (x == PhaseUnverified && p.qualificationPhase.None?)
  {
    hide Note, InPlace, Place;
    Places();
    var r1 := Note([], p.currentExposure.None?, ExposureUnverified);
    var r2 := Note(r1, p.realizedLossToday.None?, LossUnverified);
    var r3 := Note(r2, p.openSymbols.None?, PositionsUnverified);
    NoteInPlace([], p.currentExposure.None?, ExposureUnverified, 1);
    NoteInPlace(r1, p.realizedLossToday.None?, LossUnverified, 2);
    NoteInPlace(r2, p.openSymbols.None?, PositionsUnverified, 3);
    NoteInPlace(r3, p.qualificationPhase.None?, PhaseUnverified, 4);
  }

  lemma SizeBlockersInPlace(symbol: string, p: Portfolio, policy: RiskPolicy)
    ensures InPlace(SizeBlockers(symbol, p, policy), 8)
    ensures forall x :: x in SizeBlockers(symbol, p, policy) <==>
              || x in TruthBlockers(p)
              || (x == DuplicateSymbol && symbol in p.Open())
              || (x == MaximumPositions && symbol !in p.Open() && |p.Open()| >= PositionLimit(p, policy))
              || (x == DailyLossLock && LossLocked(p, policy))
              || (x == NoCapacity && PositionCap(p, policy) <= 0.0)
  {
    hide Note, TruthBlockers, PositionLimit, LossLocked, PositionCap, InPlace, Place;
    Places();
    TruthInPlace(p);
    var truth := TruthBlockers(p);
    var full := |p.Open()| >= PositionLimit(p, policy);
    LaterPlace(truth, 4, 5);
    NoteInPlace(truth, true, DuplicateSymbol, 6);
    NoteInPlace(truth, full, MaximumPositions, 6);
    NoteIs(truth, DuplicateSymbol);
    var counted := if symbol in p.Open() then truth + [DuplicateSymbol] else Note(truth, full, MaximumPositions);
    NoteInPlace(counted, LossLocked(p, policy), DailyLossLock, 7);
    NoteInPlace(Note(counted, LossLocked(p, policy), DailyLossLock), PositionCap(p, policy) <= 0.0, NoCapacity, 8);
  }

  lemma LaterPlace(blockers: seq<Blocker>, m: nat, n: nat)
    requires InPlace(blockers, m) && m <= n
    ensures InPlace(blockers, n)
  {
    hide Place;
  }

  lemma NoteIs(blockers: seq<Blocker>, b: Blocker)
    ensures Note(blockers, true, b) == blockers + [b]
  {
  }

  /** Sizing lists every blocker that applies, each once and in its place, and names
    * the minimum quantity only when nothing else blocks. */
  lemma BlocksExactly(f: Facts, p: Portfolio, policy: RiskPolicy)
    requires f.PricesValid()
    ensures BlockedExactly(f, p, policy, Sized(f, p, policy).blockers)
  {
    hide RawQuantity, SizeBlockers, TruthBlockers, PositionCap, Place, InPlace, Note, SizeOf, Sized;
    var found := SizeBlockers(f.symbol, p, policy);
    var condition := RawQuantity(f, p, policy) <= 0.0 && found == [];
    Places();
    SizeBlockersInPlace(f.symbol, p, policy);
    TruthInPlace(p);
    NoteInPlace(found, condition, CannotFundMinimum, 9);
    SizedBlockers(f, p, policy);
    MinimumAlone(found, condition);
  }

  lemma SizedBlockers(f: Facts, p: Portfolio, policy: RiskPolicy)
    requires f.PricesValid()
    ensures var found := SizeBlockers(f.symbol, p, policy);
            Sized(f, p, policy).blockers
            == Note(found, RawQuantity(f, p, policy) <= 0.0 && found == [], CannotFundMinimum)
  {
    hide SizeBlockers, RawQuantity, Note;
  }

  lemma MinimumAlone(found: seq<Blocker>, condition: bool)
    requires condition ==> found == []
    requires CannotFundMinimum !in found
    ensures CannotFundMinimum in Note(found, condition, CannotFundMinimum)
            <==> Note(found, condition, CannotFundMinimum) == [CannotFundMinimum]
  {
  }

  // ---- Evaluation --------------------------------------------------------------

  datatype Category = Preparar | NoPerseguir | Esperar | Vigilar

  datatype Candidate = Candidate(
    symbol: string,
    category: Category,
    score: int,
    rewardRisk: real,
    size: Size,
    blockers: seq<Blocker>)

  /** Sizing refuses the prices with a ValueError. */
  datatype PriceError = InvalidPrices

  function BlockedPreview(p: Portfolio, policy: RiskPolicy): Size {
    Size(RiskBudget(p, policy), 0.0, 0.0, 0.0, 0.0, TruthBlockers(p))
  }

  function CategoryOf(f: Facts, blockers: seq<Blocker>): Category {
    if f.eduPass && f.volcanoPass && blockers == [] then Preparar
    else if f.chasing then NoPerseguir
    else if f.eduPass && f.volcanoPass then Esperar
    else Vigilar
  }

  /** The portfolio-dependent half of `_evaluate`; None when neither scanner passes. */
  function Evaluate(f: Facts, p: Portfolio, policy: RiskPolicy): Result<Option<Candidate>, PriceError> {
    if !f.eduPass && !f.volcanoPass then Ok(None)
    else if f.Upstream() == [] && !f.PricesValid() then Err(InvalidPrices)
    else
      var size := if f.Upstream() != [] then BlockedPreview(p, policy) else Sized(f, p, policy);
      var blockers := f.Upstream() + size.blockers;
      Ok(Some(Candidate(f.symbol, CategoryOf(f, blockers), f.score, f.rewardRisk, size, blockers)))
  }

  function Evaluated(f: Facts, p: Portfolio, policy: RiskPolicy): (c: Candidate)
    requires f.Usable()
    ensures Evaluate(f, p, policy) == Ok(Some(c)) && c.symbol == f.symbol
  {
    Evaluate(f, p, policy).value.value
  }

  /** Whether an instrument yields a candidate, nothing or an error does not depend
    * on the portfolio. */
  lemma OutcomeIgnoresPortfolio(f: Facts, p: Portfolio, q: Portfolio, policy: RiskPolicy)
    ensures Evaluate(f, p, policy).Ok? == Evaluate(f, q, policy).Ok?
    ensures Evaluate(f, p, policy).Ok? ==> Evaluate(f, p, policy).value.Some? == Evaluate(f, q, policy).value.Some?
    ensures Evaluate(f, p, policy).Ok? && Evaluate(f, p, policy).value.Some? <==> f.Usable()
  {
    hide Sized, BlockedPreview, CategoryOf;
  }

  /** Every field of a candidate, by the facts and the portfolio: it is prepared only
    * when both scanners pass and nothing blocks, what is chased is not pursued, what
    * both scanners like waits, and the rest is watched; its blockers are the scanners'
    * and the market's, then those of sizing, and a candidate blocked before sizing is
    * not sized and lists only what is unverified. */
  ghost predicate CandidateByLaw(f: Facts, p: Portfolio, policy: RiskPolicy, c: Candidate) {
    var blocked := !f.eduPass || !f.volcanoPass || f.market != [];
    && c.symbol == f.symbol && c.score == f.score && c.rewardRisk == f.rewardRisk
    && c.size.riskBudget == Min(policy.maximumLoss, p.equity * policy.maximumRiskFraction)
    && (c.category == Preparar <==> !blocked && c.size.blockers == [])
    && (c.category == NoPerseguir <==> c.category != Preparar && f.chasing)
    && (c.category == Esperar <==> c.category != Preparar && !f.chasing && f.eduPass && f.volcanoPass)
    && (c.category == Vigilar <==> c.category != Preparar && !f.chasing && !(f.eduPass && f.volcanoPass))
    && c.blockers == (if f.eduPass then [] else [EduBelowMinimum])
                     + (if f.volcanoPass then [] else [GuardianRejects]) + f.market + c.size.blockers
    && (if !blocked then
          f.PricesValid() && SizedByLaw(f, p, policy, c.size) && BlockedExactly(f, p, policy, c.size.blockers)
        else
          && c.size.quantity == 0.0 && c.size.reserved == 0.0 && c.size.plannedLoss == 0.0
          && c.size.targetProfit == 0.0 && c.size.blockers == TruthBlockers(p))
  }

  lemma EvaluatesByLaw(f: Facts, p: Portfolio, policy: RiskPolicy)
    requires f.Usable() && p.Valid() && policy.Valid()
    ensures CandidateByLaw(f, p, policy, Evaluated(f, p, policy))
  {
    hide SizedByLaw, BlockedExactly, Sized, TruthBlockers, Min;
    UpstreamIs(f);
    if f.Upstream() == [] {
      SizesByLaw(f, p, policy);
      BlocksExactly(f, p, policy);
      SizedBudget(f, p, policy);
    }
  }

  lemma UpstreamIs(f: Facts)
    ensures f.Upstream() == (if f.eduPass then [] else [EduBelowMinimum])
                            + (if f.volcanoPass then [] else [GuardianRejects]) + f.market
  {
  }

  lemma SizedBudget(f: Facts, p: Portfolio, policy: RiskPolicy)
    requires f.PricesValid()
    ensures Sized(f, p, policy).riskBudget == RiskBudget(p, policy)
  {
    hide RawQuantity, SizeBlockers, RiskBudget;
  }

  /** A candidate is to be prepared exactly when its quantity is not zero; then the
    * portfolio is fully verified, and what it reserves and risks is bounded. */
  lemma PreparedFacts(f: Facts, p: Portfolio, policy: RiskPolicy)
    requires f.Usable() && p.Valid() && policy.Valid()
    ensures var c := Evaluated(f, p, policy);
            && (c.category == Preparar <==> c.size.quantity != 0.0)
            && c.size.quantity >= 0.0
            && 0.0 <= c.size.plannedLoss <= c.size.riskBudget == RiskBudget(p, policy)
            && (c.category != Preparar ==> c.size.reserved == 0.0)
            && (c.category == Preparar ==>
                  && f.PricesValid() && c.size == Sized(f, p, policy)
                  && SizeBlockers(f.symbol, p, policy) == []
                  && 0.0 < c.size.reserved <= PositionCap(p, policy))
  {
    hide SizeBlockers, PositionCap, RiskBudget, RawQuantity;
    CapNotNegative(p, policy);
    if f.Upstream() == [] {
      SizedFacts(f, p, policy);
    }
  }

  /** What preparing a candidate means in the policy's own terms. */
  lemma PreparedRespectsPolicy(f: Facts, p: Portfolio, policy: RiskPolicy)
    requires f.Usable() && p.Valid() && policy.Valid() && Evaluated(f, p, policy).category == Preparar
    ensures p.currentExposure.Some? && p.realizedLossToday.Some? && p.openSymbols.Some? && p.qualificationPhase.Some?
    ensures var s := Evaluated(f, p, policy).size;
            && s.plannedLoss <= policy.maximumLoss && s.plannedLoss <= p.equity * policy.maximumRiskFraction
            && s.reserved <= p.equity * policy.maximumPositionFraction && s.reserved <= p.buyingPower
            && p.currentExposure.value + s.reserved <= p.equity * policy.maximumExposureFraction
            && p.realizedLossToday.value < p.equity * policy.maximumDailyLossFraction
            && f.symbol !in p.openSymbols.value
            && (if p.qualificationPhase.value then
                  s.reserved <= policy.qualificationPositionCap
                  && |p.openSymbols.value| < policy.qualificationMaxOpenPositions
                else |p.openSymbols.value| < policy.matureMaxOpenPositions)
  {
    hide Evaluated, SizeBlockers, PositionCap, RiskBudget;
    PreparedFacts(f, p, policy);
    NothingBlocks(f.symbol, p, policy);
    CapAndBudget(p, policy);
  }

  lemma CapAndBudget(p: Portfolio, policy: RiskPolicy)
    ensures RiskBudget(p, policy) <= policy.maximumLoss
    ensures RiskBudget(p, policy) <= p.equity * policy.maximumRiskFraction
    ensures PositionCap(p, policy) <= p.equity * policy.maximumPositionFraction
    ensures PositionCap(p, policy) <= p.buyingPower
    ensures p.currentExposure.Some? && PositionCap(p, policy) > 0.0 ==>
              p.currentExposure.value + PositionCap(p, policy) <= p.equity * policy.maximumExposureFraction
    ensures !Mature(p) ==> PositionCap(p, policy) <= policy.qualificationPositionCap
  {
  }

  // ---- A later portfolio -------------------------------------------------------

  /** The same account after more capital has been committed. */
  ghost predicate Later(p: Portfolio, q: Portfolio) {
    && q.equity == p.equity && q.realizedLossToday == p.realizedLossToday
    && q.qualificationPhase == p.qualificationPhase
    && q.buyingPower <= p.buyingPower
    && q.currentExposure.Some? == p.currentExposure.Some?
    && (p.currentExposure.Some? ==> p.currentExposure.value <= q.currentExposure.value)
    && q.openSymbols.Some? == p.openSymbols.Some?
    && (p.openSymbols.Some? ==> p.openSymbols.value <= q.openSymbols.value)
  }

  lemma CapShrinks(p: Portfolio, q: Portfolio, policy: RiskPolicy)
    requires Later(p, q)
    ensures PositionCap(q, policy) <= PositionCap(p, policy)
  {
    hide ExposureCapacity, PositionFunds;
    CapacityShrinks(p, q, policy);
    FundsStay(p, q, policy);
    MinThreeGrows(PositionFunds(p, policy), q.buyingPower, ExposureCapacity(q, policy),
                  p.buyingPower, ExposureCapacity(p, policy), policy.qualificationPositionCap);
  }

  lemma FundsStay(p: Portfolio, q: Portfolio, policy: RiskPolicy)
    requires Later(p, q)
    ensures PositionFunds(q, policy) == PositionFunds(p, policy)
  {
  }

  lemma MinThreeGrows(a: real, b: real, c: real, b': real, c': real, cap: real)
    requires b <= b' && c <= c'
    ensures Min(Min(a, b), c) <= Min(Min(a, b'), c')
    ensures Min(Min(Min(a, b), c), cap) <= Min(Min(Min(a, b'), c'), cap)
  {
  }

  lemma CapacityShrinks(p: Portfolio, q: Portfolio, policy: RiskPolicy)
    requires Later(p, q)
    ensures ExposureCapacity(q, policy) <= ExposureCapacity(p, policy)
  {
  }

  lemma LimitsStay(p: Portfolio, q: Portfolio, policy: RiskPolicy)
    requires Later(p, q)
    ensures RiskBudget(q, policy) == RiskBudget(p, policy)
    ensures PositionLimit(q, policy) == PositionLimit(p, policy) && LossLocked(q, policy) == LossLocked(p, policy)
  {
  }

  lemma RawShrinks(f: Facts, p: Portfolio, q: Portfolio, policy: RiskPolicy)
    requires f.PricesValid() && q.Valid() && policy.Valid() && Later(p, q)
    ensures RawQuantity(f, q, policy) <= RawQuantity(f, p, policy)
  {
    hide PositionCap, RiskBudget, RoundedDown, Later;
    CapShrinks(p, q, policy);
    LimitsStay(p, q, policy);
    CapNotNegative(q, policy);
    DividedGrows(PositionCap(q, policy), PositionCap(p, policy), f.entry);
    DividedTimes(RiskBudget(q, policy), f.entry - f.stop, 0.0);
    DividedTimes(PositionCap(q, policy), f.entry, 0.0);
    RoundedGrows(Min(RiskBudget(q, policy) / (f.entry - f.stop), PositionCap(q, policy) / f.entry),
                 Min(RiskBudget(p, policy) / (f.entry - f.stop), PositionCap(p, policy) / f.entry), f.fractional);
  }

  lemma DividedGrows(a: real, b: real, unit: real)
    requires a <= b && unit > 0.0
    ensures a / unit <= b / unit
  {
  }

  /** What blocked before blocks later. */
  lemma BlockersStay(symbol: string, p: Portfolio, q: Portfolio, policy: RiskPolicy)
    requires Later(p, q) && SizeBlockers(symbol, p, policy) != []
    ensures SizeBlockers(symbol, q, policy) != []
  {
    hide SizeBlockers, PositionCap, PositionLimit, LossLocked;
    BlockedIff(symbol, p, policy);
    BlockedIff(symbol, q, policy);
    CapShrinks(p, q, policy);
    LimitsStay(p, q, policy);
  }

  /** Against a later portfolio no candidate is larger, none that was blocked is
    * prepared, and a blocked one keeps its category. */
  lemma SizingShrinks(f: Facts, p: Portfolio, q: Portfolio, policy: RiskPolicy)
    requires f.Usable() && p.Valid() && q.Valid() && policy.Valid() && Later(p, q)
    ensures var before, after := Evaluated(f, p, policy), Evaluated(f, q, policy);
            && after.size.quantity <= before.size.quantity
            && (before.category != Preparar ==> after.category == before.category && after.size.quantity == 0.0)
  {
    hide SizeBlockers, RawQuantity, RiskBudget, Later, PositionCap;
    PreparedFacts(f, p, policy);
    PreparedFacts(f, q, policy);
    if f.Upstream() == [] {
      RawShrinks(f, p, q, policy);
      QuantityFits(f, q, policy);
      if SizeBlockers(f.symbol, p, policy) != [] {
        BlockersStay(f.symbol, p, q, policy);
      }
    }
  }
}
