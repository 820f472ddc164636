/** The backtest loop (volcanoes/backtest/backtest_engine.py) over a historical feed
  * (volcanoes/market/historical_feed.py): it consumes every bar, never raises on a
  * fresh account, and its counters and snapshots account for every signal. The
  * strategy is the sequence of answers it gives, one a bar.
  */
module Backtest {
  import opened Wrappers
  import opened Accounts
  import opened TradePolicies
  import opened PortfolioModel
  import TradePlanner
  import opened Pipeline
  import opened Drawdown

  type Signal = Option<TradeIntent>

  /** Bars carry only their place in the feed's order here. */
  class HistoricalFeed<Bar> {
    const bars: seq<Bar>
    var index: nat

    constructor (bars: seq<Bar>)
      ensures this.bars == bars && index == 0
    {
      this.bars, index := bars, 0;
    }

    function RemainingBars(): int
      reads this
    {
      |bars| - index
    }

    predicate HasNext(): (more: bool)
      reads this
      ensures more <==> RemainingBars() > 0
    {
      index < |bars|
    }

    /** The next unread bar, or the exhaustion error with the position unchanged. */
    method NextBar() returns (bar: Option<Bar>)
      modifies this
      ensures bar == if old(HasNext()) then Some(bars[old(index)]) else None
      ensures index == old(index) + if old(HasNext()) then 1 else 0
      ensures RemainingBars() == old(RemainingBars()) - if old(HasNext()) then 1 else 0
    {
      if !HasNext() {
        return None;
      }
      bar := Some(bars[index]);
      index := index + 1;
    }

    /** Back to the first bar, so that a run can be repeated on the same feed. */
    method Reset()
      modifies this
      ensures index == 0 && RemainingBars() == |bars|
    {
      index := 0;
    }
  }

  // ---- What the run should do ----------------------------------------------------

  /** An account the pipeline can start from, a valid configuration and answers
    * whose trade intents are valid. */
  ghost predicate Playable(a: Account, config: RiskConfig, signals: seq<Signal>) {
    && WithinLimits(a, config) && config.Valid()
    && forall k :: 0 <= k < |signals| && signals[k].Some? ==> signals[k].value.Valid()
  }

  /** The account after one answer of the strategy, and what became of it. */
  ghost function Answered(a: Account, config: RiskConfig, signal: Signal): (Account, Option<Execution>)
    requires WithinLimits(a, config) && config.Valid() && (signal.Some? ==> signal.value.Valid())
  {
    if signal.None? then (a, None)
    else
      StepKeepsLimits(a, config, signal.value);
      var (after, outcome) := Executed(a, config, signal.value);
      (after, Some(outcome))
  }

  /** The account after the first k bars. */
  ghost function AccountAfter(a: Account, config: RiskConfig, signals: seq<Signal>, k: nat): (after: Account)
    requires Playable(a, config, signals) && k <= |signals|
    ensures WithinLimits(after, config) && config.Valid()
    decreases k
  {
    if k == 0 then a
    else
      var before := AccountAfter(a, config, signals, k - 1);
      AnsweredKeeps(before, config, signals[k - 1]);
      Answered(before, config, signals[k - 1]).0
  }

  lemma AnsweredKeeps(a: Account, config: RiskConfig, signal: Signal)
    requires WithinLimits(a, config) && config.Valid() && (signal.Some? ==> signal.value.Valid())
    ensures var (after, outcome) := Answered(a, config, signal);
            && WithinLimits(after, config) && after.startingCash == a.startingCash
            && (outcome.None? <==> signal.None?) && (outcome.Some? ==> !outcome.value.Raised?)
  {
    hide WithinLimits, Executed;
    if signal.Some? {
      StepKeepsLimits(a, config, signal.value);
      StartingCashStays(a, config, signal.value);
    }
  }

  lemma StartingCashStays(a: Account, config: RiskConfig, intent: TradeIntent)
    requires Positive(a.book) && intent.Valid()
    ensures Executed(a, config, intent).0.startingCash == a.startingCash
  {
    hide TradePlanner.Planned, ViewOf;
  }

  function SignalsIn(signals: seq<Signal>): nat {
    if signals == [] then 0
    else SignalsIn(signals[..|signals| - 1]) + if signals[|signals| - 1].Some? then 1 else 0
  }

  /** How many of the first k answers were plans that reached the broker. */
  ghost function SubmittedIn(a: Account, config: RiskConfig, signals: seq<Signal>, k: nat): nat
    requires Playable(a, config, signals) && k <= |signals|
    decreases k
  {
    if k == 0 then 0
    else
      var outcome := Answered(AccountAfter(a, config, signals, k - 1), config, signals[k - 1]).1;
      SubmittedIn(a, config, signals, k - 1) + if outcome.Some? && outcome.value.Submitted? then 1 else 0
  }

  ghost function SnapshotOf(a: Account): Snapshot {
    Snapshot(a.cash, Invested(a.book), Equity(a), a.realizedPnl,
             Equity(a) - a.startingCash - a.realizedPnl, |a.book|)
  }

  /** Positions are carried at cost, so nothing is ever unrealized. */
  lemma NothingUnrealized(a: Account, config: RiskConfig)
    requires WithinLimits(a, config)
    ensures SnapshotOf(a).unrealizedPnl == 0.0
    ensures SnapshotOf(a).equity == a.startingCash + a.realizedPnl
    ensures SnapshotOf(a).equity > 0.0
  {
  }

  lemma PositiveIsMeasurable(es: seq<real>)
    requires forall i :: 0 <= i < |es| ==> es[i] > 0.0
    ensures Measurable(es)
  {
    if es != [] {
      assert es[0] >= 0.0;
    }
  }

  /** One bar moves every running total by what its answer does. */
  lemma BarStep(start: Account, config: RiskConfig, signals: seq<Signal>, k: nat)
    requires Playable(start, config, signals) && k < |signals|
    ensures signals[k].Some? ==> signals[k].value.Valid()
    ensures SignalsIn(signals[..k + 1]) == SignalsIn(signals[..k]) + if signals[k].Some? then 1 else 0
    ensures var (after, outcome) := Answered(AccountAfter(start, config, signals, k), config, signals[k]);
            && (outcome.None? <==> signals[k].None?) && (outcome.Some? ==> !outcome.value.Raised?)
            && AccountAfter(start, config, signals, k + 1) == after
            && SubmittedIn(start, config, signals, k + 1)
               == SubmittedIn(start, config, signals, k)
                  + if outcome.Some? && outcome.value.Submitted? then 1 else 0
  {
    hide WithinLimits, Answered;
    assert signals[..k + 1][..k] == signals[..k];
    AnsweredKeeps(AccountAfter(start, config, signals, k), config, signals[k]);
  }

  lemma BarStart(start: Account, config: RiskConfig, signals: seq<Signal>)
    requires Playable(start, config, signals)
    ensures AccountAfter(start, config, signals, 0) == start
    ensures SubmittedIn(start, config, signals, 0) == SignalsIn([]) == 0
    ensures Recorded(start, config, signals, [])
  {
  }

  ghost predicate Recorded(start: Account, config: RiskConfig, signals: seq<Signal>, snapshots: seq<Snapshot>)
    requires Playable(start, config, signals)
  {
    |snapshots| <= |signals|
    && forall k :: 0 <= k < |snapshots| ==> snapshots[k] == SnapshotOf(AccountAfter(start, config, signals, k + 1))
  }

  lemma RecordedExtends(start: Account, config: RiskConfig, signals: seq<Signal>, snapshots: seq<Snapshot>)
    requires Playable(start, config, signals) && |snapshots| < |signals|
    requires Recorded(start, config, signals, snapshots)
    ensures Recorded(start, config, signals,
                     snapshots + [SnapshotOf(AccountAfter(start, config, signals, |snapshots| + 1))])
  {
    hide Playable, WithinLimits, AccountAfter, SnapshotOf;
    var n := |snapshots|;
    Appended(snapshots, SnapshotOf(AccountAfter(start, config, signals, n + 1)));
  }

  lemma Appended(snapshots: seq<Snapshot>, s: Snapshot)
    ensures var longer := snapshots + [s];
            |longer| == |snapshots| + 1 && longer[|snapshots|] == s
            && forall k :: 0 <= k < |snapshots| ==> longer[k] == snapshots[k]
  {
  }

  lemma {:induction false} StartingCashAfter(start: Account, config: RiskConfig, signals: seq<Signal>, k: nat)
    requires Playable(start, config, signals) && k <= |signals|
    ensures AccountAfter(start, config, signals, k).startingCash == start.startingCash
    decreases k
  {
    hide WithinLimits, Answered;
    if k > 0 {
      StartingCashAfter(start, config, signals, k - 1);
      AnsweredKeeps(AccountAfter(start, config, signals, k - 1), config, signals[k - 1]);
    }
  }

  /** What every snapshot of a run says: equity is cash plus market value, and also
    * starting cash plus realized profit, so that nothing is unrealized; cash and
    * market value are never negative, and market value and position count stay
    * within their limits. */
  ghost predicate SnapshotWithin(s: Snapshot, startingCash: real, config: RiskConfig) {
    && s.equity == s.cash + s.marketValue == startingCash + s.realizedPnl
    && s.equity > 0.0 && s.unrealizedPnl == 0.0
    && s.cash >= 0.0
    && 0.0 <= s.marketValue <= s.equity * config.maxPortfolioExposure
    && 0 <= s.openPositions <= config.maxOpenPositions
  }

  /** The snapshot of an account is its own amounts: the cash its ledger explains,
    * and its holdings at cost. */
  lemma SnapshotIsAccount(a: Account, config: RiskConfig)
    requires WithinLimits(a, config)
    ensures SnapshotWithin(SnapshotOf(a), a.startingCash, config)
    ensures SnapshotOf(a).cash == a.startingCash + TotalAmount(a.entries)
    ensures SnapshotOf(a).openPositions == |a.book|
    ensures a.book == map[] ==> SnapshotOf(a).marketValue == 0.0
  {
    hide TotalAmount, Replay;
    InvestedNotNegative(a.book);
    NothingUnrealized(a, config);
    EmptyInvested();
  }

  /** Every snapshot of a run stays within the limits and explains its equity, and
    * the drawdown of them all is measurable. */
  lemma RecordedMeasurable(start: Account, config: RiskConfig, signals: seq<Signal>, snapshots: seq<Snapshot>)
    requires Playable(start, config, signals) && Recorded(start, config, signals, snapshots)
    ensures Measurable(Equities(snapshots))
    ensures forall k :: 0 <= k < |snapshots| ==>
              SnapshotWithin(snapshots[k], start.startingCash, config) && snapshots[k].equity > 0.0
  {
    hide Playable, WithinLimits, AccountAfter, SnapshotOf, Measurable;
    forall k | 0 <= k < |snapshots|
      ensures SnapshotWithin(snapshots[k], start.startingCash, config)
    {
      SnapshotFacts(start, config, signals, k + 1);
    }
    PositiveIsMeasurable(Equities(snapshots));
  }

  /** The last snapshot is that of the account the run ends with. */
  lemma LastRecorded(start: Account, config: RiskConfig, signals: seq<Signal>, snapshots: seq<Snapshot>)
    requires Playable(start, config, signals) && Recorded(start, config, signals, snapshots)
    requires |snapshots| == |signals|
    ensures signals != [] ==>
              snapshots[|signals| - 1] == SnapshotOf(AccountAfter(start, config, signals, |signals|))
  {
    hide Playable, AccountAfter, SnapshotOf;
  }

  lemma SnapshotFacts(start: Account, config: RiskConfig, signals: seq<Signal>, k: nat)
    requires Playable(start, config, signals) && k <= |signals|
    ensures SnapshotWithin(SnapshotOf(AccountAfter(start, config, signals, k)), start.startingCash, config)
  {
    hide Playable, WithinLimits, AccountAfter, SnapshotOf, SnapshotWithin;
    SnapshotIsAccount(AccountAfter(start, config, signals, k), config);
    StartingCashAfter(start, config, signals, k);
  }

  /** Once the daily loss is reached the rest of the backtest trades nothing: account
    * and submitted orders stay as they are, whatever the strategy answers. */
  lemma {:induction false} StopsForGood(start: Account, config: RiskConfig, signals: seq<Signal>, k: nat, n: nat)
    requires Playable(start, config, signals) && k <= n <= |signals|
    requires Stopped(AccountAfter(start, config, signals, k), config)
    ensures AccountAfter(start, config, signals, n) == AccountAfter(start, config, signals, k)
    ensures SubmittedIn(start, config, signals, n) == SubmittedIn(start, config, signals, k)
    decreases n
  {
    hide WithinLimits, Answered, Stopped, SnapshotOf;
    if k < n {
      StopsForGood(start, config, signals, k, n - 1);
      StoppedAnswer(AccountAfter(start, config, signals, n - 1), config, signals[n - 1]);
    }
  }

  lemma StoppedAnswer(a: Account, config: RiskConfig, signal: Signal)
    requires WithinLimits(a, config) && config.Valid() && (signal.Some? ==> signal.value.Valid())
    requires Stopped(a, config)
    ensures var (after, outcome) := Answered(a, config, signal);
            after == a && !(outcome.Some? && outcome.value.Submitted?)
  {
    hide Executed, Stopped, WithinLimits;
    if signal.Some? {
      WithinIsPositive(a, config);
      DailyLossStops(a, config, signal.value);
    }
  }

  lemma WithinIsPositive(a: Account, config: RiskConfig)
    requires WithinLimits(a, config)
    ensures Positive(a.book)
  {
  }

  // ---- The engine ------------------------------------------------------------------

  datatype BacktestResult = BacktestResult(
    totalBars: nat,
    signals: nat,
    executedTrades: nat,
    rejectedTrades: nat,
    snapshots: seq<Snapshot>,
    report: Report)
  {
    /** What the record checks on construction. */
    predicate Valid(): (ok: bool)
      ensures ok <==> executedTrades + rejectedTrades <= signals
    {
      !(executedTrades + rejectedTrades > signals)
    }
  }

  class BacktestEngine<Bar> {
    const feed: HistoricalFeed<Bar>
    const pipeline: ExecutionPipeline
    const portfolio: Portfolio

    constructor (feed: HistoricalFeed<Bar>, pipeline: ExecutionPipeline, portfolio: Portfolio)
      ensures this.feed == feed && this.pipeline == pipeline && this.portfolio == portfolio
    {
      this.feed, this.pipeline, this.portfolio := feed, pipeline, portfolio;
    }

    /** Every call that could raise is followed by the assertion that it did not:
      * the pipeline, the report and the result's own check. */
    method Run(signals: seq<Signal>) returns (r: BacktestResult)
      requires portfolio == pipeline.broker.portfolio && portfolio.Valid()
      requires Playable(portfolio.AsAccount(), pipeline.config, signals)
      requires |signals| == feed.RemainingBars()
      modifies feed, pipeline.broker, portfolio, portfolio.positions.Values, portfolio.ledger
      ensures feed.RemainingBars() == 0
      ensures r.totalBars == |r.snapshots| == |signals|
      ensures r.executedTrades + r.rejectedTrades == r.signals == SignalsIn(signals)
      ensures var start := old(portfolio.AsAccount());
              && Playable(start, pipeline.config, signals)
              && portfolio.AsAccount() == AccountAfter(start, pipeline.config, signals, |signals|)
              && r.executedTrades == SubmittedIn(start, pipeline.config, signals, |signals|)
              && Recorded(start, pipeline.config, signals, r.snapshots)
      ensures forall k :: 0 <= k < |signals| ==>
                SnapshotWithin(r.snapshots[k], old(portfolio.AsAccount()).startingCash, pipeline.config)
      ensures signals != [] ==> r.snapshots[|signals| - 1] == SnapshotOf(portfolio.AsAccount())
      ensures r.Valid() && ReportChecked(r.report) == Ok(r.report)
    {
      hide *;
      var totalBars, seen, executed, rejected := 0, 0, 0, 0;
      var snapshots: seq<Snapshot> := [];
      ghost var start := portfolio.AsAccount();
      ghost var config := pipeline.config;
      BarStart(start, config, signals);
      assert signals[..0] == [];
      while feed.HasNext()
        invariant portfolio.Valid()
        invariant fresh(portfolio.positions.Values - old(portfolio.positions.Values))
        invariant feed.RemainingBars() == |signals| - totalBars
        invariant 0 <= totalBars == |snapshots| <= |signals|
        invariant seen == SignalsIn(signals[..totalBars]) == executed + rejected
        invariant portfolio.AsAccount() == AccountAfter(start, config, signals, totalBars)
        invariant executed == SubmittedIn(start, config, signals, totalBars)
        invariant Recorded(start, config, signals, snapshots)
        decreases |signals| - totalBars
      {
        BarStep(start, config, signals, totalBars);
        RecordedExtends(start, config, signals, snapshots);
        var signal := signals[totalBars];
        var outcome, snapshot := ProcessBar(signal);
        totalBars := totalBars + 1;
        if outcome.Some? {
          assert !outcome.value.Raised?;
          seen := seen + 1;
          if outcome.value.Submitted? {
            executed := executed + 1;
          } else {
            rejected := rejected + 1;
          }
        }
        snapshots := snapshots + [snapshot];
      }
      assert signals[..totalBars] == signals;
      RecordedMeasurable(start, config, signals, snapshots);
      LastRecorded(start, config, signals, snapshots);
      var report := Analyze(snapshots);
      assert report.Ok?;
      r := BacktestResult(totalBars, seen, executed, rejected, snapshots, report.value);
    }

    /** One turn of the loop: read a bar, execute the strategy's answer, if any, and
      * photograph the portfolio. */
    method ProcessBar(signal: Signal) returns (outcome: Option<Execution>, snapshot: Snapshot)
      requires portfolio == pipeline.broker.portfolio && portfolio.Valid() && feed.HasNext()
      requires WithinLimits(portfolio.AsAccount(), pipeline.config) && pipeline.config.Valid()
      requires signal.Some? ==> signal.value.Valid()
      modifies feed, pipeline.broker, portfolio, portfolio.positions.Values, portfolio.ledger
      ensures portfolio.Valid() && fresh(portfolio.positions.Values - old(portfolio.positions.Values))
      ensures feed.RemainingBars() == old(feed.RemainingBars()) - 1
      ensures WithinLimits(old(portfolio.AsAccount()), pipeline.config)
      ensures (portfolio.AsAccount(), outcome) == Answered(old(portfolio.AsAccount()), pipeline.config, signal)
      ensures snapshot == SnapshotOf(portfolio.AsAccount())
    {
      hide *;
      var bar := feed.NextBar();
      outcome := Answer(signal);
      snapshot := CreateSnapshot();
    }

    method Answer(signal: Signal) returns (outcome: Option<Execution>)
      requires portfolio == pipeline.broker.portfolio && portfolio.Valid()
      requires WithinLimits(portfolio.AsAccount(), pipeline.config) && pipeline.config.Valid()
      requires signal.Some? ==> signal.value.Valid()
      modifies pipeline.broker, portfolio, portfolio.positions.Values, portfolio.ledger
      ensures portfolio.Valid() && fresh(portfolio.positions.Values - old(portfolio.positions.Values))
      ensures WithinLimits(old(portfolio.AsAccount()), pipeline.config)
      ensures (portfolio.AsAccount(), outcome) == Answered(old(portfolio.AsAccount()), pipeline.config, signal)
    {
      hide Portfolio.Valid, Portfolio.AsAccount, WithinLimits, Executed;
      outcome := None;
      if signal.Some? {
        var execution := pipeline.Execute(portfolio, signal.value);
        outcome := Some(execution);
      }
    }

    method CreateSnapshot() returns (snapshot: Snapshot)
      requires portfolio.Valid()
      ensures snapshot == SnapshotOf(portfolio.AsAccount())
    {
      hide Portfolio.Valid;
      var marketValue := portfolio.InvestedValue();
      var equity := portfolio.cash + marketValue;
      SameCount(portfolio);
      snapshot := Snapshot(portfolio.cash, marketValue, equity, portfolio.realizedPnl,
                           equity - portfolio.startingCash - portfolio.realizedPnl, |portfolio.positions|);
    }
  }

  lemma SameCount(portfolio: Portfolio)
    ensures |portfolio.AsAccount().book| == |portfolio.positions|
  {
    assert portfolio.AsAccount().book.Keys == portfolio.positions.Keys;
  }
}
