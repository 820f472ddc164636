/** Drawdown in one pass (volcanoes/analytics/metrics/drawdown.py) against its
  * definition over all pairs of snapshots, and the report built on it
  * (volcanoes/analytics/analytics_engine.py).
  */
module Drawdown {
  import opened Wrappers
  import opened Money

  datatype Metrics = Metrics(
    peakEquity: real,
    currentDrawdown: real,
    maximumDrawdown: real,
    maximumDrawdownAmount: real,
    snapshotCount: nat)

  datatype CheckError =
    | PeakNegative
    | CurrentNegative
    | MaximumNegative
    | AmountNegative
    | CurrentAboveOne
    | MaximumAboveOne
    | CurrentAboveMaximum
    | StartNegative
    | EndNegative

  /** The checks a metrics record makes on construction, in their order. */
  function Checked(m: Metrics): Result<Metrics, CheckError> {
    if m.peakEquity < 0.0 then Err(PeakNegative)
    else if m.currentDrawdown < 0.0 then Err(CurrentNegative)
    else if m.maximumDrawdown < 0.0 then Err(MaximumNegative)
    else if m.maximumDrawdownAmount < 0.0 then Err(AmountNegative)
    else if m.currentDrawdown > 1.0 then Err(CurrentAboveOne)
    else if m.maximumDrawdown > 1.0 then Err(MaximumAboveOne)
    else if m.currentDrawdown > m.maximumDrawdown then Err(CurrentAboveMaximum)
    else Ok(m)
  }

  /** The fall from an earlier equity to a later one, as a fraction of the former. */
  function Fall(high: real, low: real): real
    requires high != 0.0
  {
    (high - low) / high
  }

  ghost predicate IsPeak(es: seq<real>, peak: real) {
    peak in es && forall i :: 0 <= i < |es| ==> es[i] <= peak
  }

  /** No equity is negative after a positive one. */
  ghost predicate NoRuin(es: seq<real>) {
    forall i, j :: 0 <= i <= j < |es| && es[i] > 0.0 ==> es[j] >= 0.0
  }

  ghost predicate NoneAbove(es: seq<real>, m: real) {
    forall i, j :: 0 <= i <= j < |es| && es[i] > 0.0 ==> Fall(es[i], es[j]) <= m
  }

  ghost predicate Attained(es: seq<real>, m: real, amount: real) {
    || (m == 0.0 && amount == 0.0)
    || exists i, j :: 0 <= i <= j < |es| && es[i] > 0.0 && Fall(es[i], es[j]) == m && es[i] - es[j] == amount
  }

  /** The maximum over all pairs of an earlier positive equity and a later one; 0
    * if there is no fall. */
  ghost predicate IsMaximumDrawdown(es: seq<real>, m: real, amount: real) {
    0.0 <= m <= 1.0 && amount >= 0.0 && NoneAbove(es, m) && Attained(es, m, amount)
  }

  /** From a fixed non-negative low, a higher peak falls by the larger fraction. */
  lemma HigherPeakFallsMore(a: real, peak: real, low: real)
    requires 0.0 < a <= peak && 0.0 <= low
    ensures Fall(a, low) <= Fall(peak, low)
  {
    hide Fall;
    FallTimes(a, low);
    FallTimes(peak, low);
    var kept, keptOfPeak := 1.0 - Fall(a, low), 1.0 - Fall(peak, low);
    if kept < keptOfPeak {
      Scale(a, peak, keptOfPeak);
      ScaleStrict(kept, keptOfPeak, a);
    }
  }

  lemma FallTimes(high: real, low: real)
    requires high > 0.0
    ensures (1.0 - Fall(high, low)) * high == low
    ensures low >= 0.0 ==> Fall(high, low) <= 1.0
  {
    var f := Fall(high, low);
    assert f * high == high - low;
    if f > 1.0 {
      ScaleStrict(1.0, f, high);
    }
  }

  /** The sign of a fall, and which falls exceed the whole. */
  lemma FallRange(high: real, low: real)
    requires high != 0.0 && low <= high
    ensures high > 0.0 ==> Fall(high, low) >= 0.0 && (Fall(high, low) > 1.0 <==> low < 0.0)
    ensures high < 0.0 ==> Fall(high, low) <= 0.0
  {
    var f := Fall(high, low);
    assert f * high == high - low;
    if high > 0.0 {
      FallTimes(high, low);
      if f <= 1.0 {
        Scale(0.0, 1.0 - f, high);
      }
    }
  }

  // ---- One more snapshot -----------------------------------------------------

  /** What the running values say about the equities read so far. */
  ghost predicate Running(es: seq<real>, m: real, amount: real) {
    && m >= 0.0 && amount >= 0.0
    && (if NoRuin(es) then IsMaximumDrawdown(es, m, amount) else m > 1.0)
  }

  function Extended(peak: real, e: real): real {
    if peak == 0.0 then 0.0 else Fall(peak, e)
  }

  lemma PeakExtends(es: seq<real>, peak: real, e: real)
    requires if es == [] then peak == e else IsPeak(es, peak)
    ensures IsPeak(es + [e], if e > peak then e else peak)
  {
    var peak' := if e > peak then e else peak;
    var all := es + [e];
    assert all[|es|] == e;
    if es != [] {
      var k :| 0 <= k < |es| && es[k] == peak;
      assert all[k] == peak;
    }
  }

  /** A fall below zero after a positive equity shows as a fraction above one. */
  lemma RuinShows(es: seq<real>, e: real, peak: real)
    requires IsPeak(es + [e], peak) && NoRuin(es)
    ensures NoRuin(es + [e]) <==> !(peak > 0.0 && e < 0.0)
  {
    var all := es + [e];
    if peak > 0.0 && e < 0.0 {
      var k :| 0 <= k < |all| && all[k] == peak;
      assert all[|es|] == e;
    } else {
      forall i, j | 0 <= i <= j < |all| && all[i] > 0.0 ensures all[j] >= 0.0 {
        if j < |es| {
          assert es[i] == all[i] && es[j] == all[j];
        }
      }
    }
  }

  lemma RuinStays(es: seq<real>, e: real)
    requires !NoRuin(es)
    ensures !NoRuin(es + [e])
  {
    var i, j :| 0 <= i <= j < |es| && es[i] > 0.0 && es[j] < 0.0;
    assert (es + [e])[i] > 0.0 && (es + [e])[j] < 0.0;
  }

  lemma NoneAboveExtends(es: seq<real>, e: real, peak: real, m: real)
    requires NoneAbove(es, m) && IsPeak(es + [e], peak) && m >= 0.0
    requires peak > 0.0 ==> e >= 0.0 && Fall(peak, e) <= m
    ensures NoneAbove(es + [e], m)
  {
    hide Fall;
    var all := es + [e];
    forall i, j | 0 <= i <= j < |all| && all[i] > 0.0 ensures Fall(all[i], all[j]) <= m {
      if j < |es| {
        assert es[i] == all[i] && es[j] == all[j];
      } else {
        HigherPeakFallsMore(all[i], peak, e);
      }
    }
  }

  lemma AttainedExtends(es: seq<real>, e: real, m: real, amount: real)
    requires Attained(es, m, amount)
    ensures Attained(es + [e], m, amount)
  {
    hide Fall;
    var all := es + [e];
    if !(m == 0.0 && amount == 0.0) {
      var i, j :| 0 <= i <= j < |es| && es[i] > 0.0 && Fall(es[i], es[j]) == m && es[i] - es[j] == amount;
      assert all[i] == es[i] && all[j] == es[j];
    }
  }

  lemma AttainedByPeak(es: seq<real>, e: real, peak: real)
    requires IsPeak(es + [e], peak) && peak > 0.0
    ensures Attained(es + [e], Fall(peak, e), peak - e)
  {
    hide Fall;
    var all := es + [e];
    var k :| 0 <= k < |all| && all[k] == peak;
    assert all[|es|] == e;
  }

  lemma RunningExtends(es: seq<real>, e: real, peak: real, m: real, amount: real)
    requires Running(es, m, amount) && IsPeak(es + [e], peak)
    ensures var d := Extended(peak, e);
            if d > m then Running(es + [e], d, peak - e) else Running(es + [e], m, amount)
  {
    hide NoneAbove, Attained, NoRuin, Fall;
    assert e <= peak by { assert (es + [e])[|es|] == e; }
    if peak != 0.0 {
      FallRange(peak, e);
    }
    if !NoRuin(es) {
      RuinStays(es, e);
    } else {
      RuinShows(es, e, peak);
      var d := Extended(peak, e);
      AttainedExtends(es, e, m, amount);
      if !(peak > 0.0 && e < 0.0) {
        if d > m {
          NoneAboveWeakens(es, m, d);
          NoneAboveExtends(es, e, peak, d);
          AttainedByPeak(es, e, peak);
        } else {
          NoneAboveExtends(es, e, peak, m);
        }
      }
    }
  }

  lemma NoneAboveWeakens(es: seq<real>, m: real, d: real)
    requires NoneAbove(es, m) && m <= d
    ensures NoneAbove(es, d)
  {
  }

  // ---- The calculator ----------------------------------------------------------

  /** Where the calculator returns at all: some equity is not negative, and none is
    * negative after a positive one. */
  ghost predicate Measurable(es: seq<real>) {
    es == [] || ((exists i :: 0 <= i < |es| && es[i] >= 0.0) && NoRuin(es))
  }

  method Calculate(es: seq<real>) returns (r: Result<Metrics, CheckError>)
    ensures r.Ok? <==> Measurable(es)
    ensures r.Ok? ==> IsMaximumDrawdown(es, r.value.maximumDrawdown, r.value.maximumDrawdownAmount)
    ensures r.Ok? ==> r.value.snapshotCount == |es|
    ensures r.Ok? && es != [] ==>
              && IsPeak(es, r.value.peakEquity)
              && r.value.currentDrawdown == Extended(r.value.peakEquity, es[|es| - 1])
    ensures r.Ok? && es == [] ==> r.value == Metrics(0.0, 0.0, 0.0, 0.0, 0)
    ensures r.Ok? ==> Checked(r.value) == r
  {
    hide IsPeak, NoneAbove, Attained, NoRuin, Fall;
    if es == [] {
      NothingAbove();
      return Checked(Metrics(0.0, 0.0, 0.0, 0.0, 0));
    }
    var peak := es[0];
    var maximum, amount, current := 0.0, 0.0, 0.0;
    NothingAbove();
    assert es[..0] == [];
    var n := 0;
    while n < |es|
      invariant 0 <= n <= |es|
      invariant if n == 0 then peak == es[0] else IsPeak(es[..n], peak)
      invariant Running(es[..n], maximum, amount)
      invariant n > 0 ==> current == Extended(peak, es[n - 1]) && es[n - 1] <= peak
      invariant current <= maximum
    {
      var equity := es[n];
      assert es[..n + 1] == es[..n] + [equity];
      PeakExtends(es[..n], peak, equity);
      if equity > peak {
        peak := equity;
      }
      var drawdownAmount := peak - equity;
      var drawdown := if peak == 0.0 then 0.0 else drawdownAmount / peak;
      assert drawdown == Extended(peak, equity) by { FallUnfolds(peak, equity); }
      RunningExtends(es[..n], equity, peak, maximum, amount);
      current := drawdown;
      if drawdown > maximum {
        maximum := drawdown;
        amount := drawdownAmount;
      }
      n := n + 1;
    }
    assert es[..n] == es;
    PeakSign(es, peak);
    if peak != 0.0 {
      FallRange(peak, es[n - 1]);
    }
    r := Checked(Metrics(peak, current, maximum, amount, |es|));
  }

  lemma FallUnfolds(peak: real, equity: real)
    ensures Extended(peak, equity) == if peak == 0.0 then 0.0 else (peak - equity) / peak
  {
  }

  lemma NothingAbove()
    ensures NoRuin([]) && IsMaximumDrawdown([], 0.0, 0.0)
  {
  }

  lemma PeakSign(es: seq<real>, peak: real)
    requires IsPeak(es, peak)
    ensures peak >= 0.0 <==> exists i :: 0 <= i < |es| && es[i] >= 0.0
  {
    var k :| 0 <= k < |es| && es[k] == peak;
  }

  // ---- The report ----------------------------------------------------------------

  datatype Snapshot = Snapshot(
    cash: real,
    marketValue: real,
    equity: real,
    realizedPnl: real,
    unrealizedPnl: real,
    openPositions: int)

  datatype Report = Report(
    startingEquity: real,
    endingEquity: real,
    totalReturn: real,
    realizedPnl: real,
    unrealizedPnl: real,
    snapshotCount: nat,
    drawdown: Metrics)

  function ReportChecked(r: Report): Result<Report, CheckError> {
    if r.startingEquity < 0.0 then Err(StartNegative)
    else if r.endingEquity < 0.0 then Err(EndNegative)
    else
      var m := Checked(r.drawdown);
      if m.Err? then Err(m.error) else Ok(r)
  }

  function Equities(snapshots: seq<Snapshot>): (es: seq<real>)
    ensures |es| == |snapshots|
    ensures forall i :: 0 <= i < |es| ==> es[i] == snapshots[i].equity
  {
    if snapshots == [] then [] else [snapshots[0].equity] + Equities(snapshots[1..])
  }

  /** A report comes out exactly when the drawdown is measurable and the first and
    * last equities are not negative; its return and its profits are those of the
    * ends of the series. */
  method Analyze(snapshots: seq<Snapshot>) returns (r: Result<Report, CheckError>)
    ensures var es := Equities(snapshots);
            r.Ok? <==> Measurable(es) && (es != [] ==> es[0] >= 0.0 && es[|es| - 1] >= 0.0)
    ensures r.Ok? ==> r.value.snapshotCount == |snapshots| && ReportChecked(r.value) == r
    ensures r.Ok? ==> IsMaximumDrawdown(Equities(snapshots), r.value.drawdown.maximumDrawdown,
                                        r.value.drawdown.maximumDrawdownAmount)
    ensures r.Ok? && snapshots != [] ==>
              var first, last := snapshots[0], snapshots[|snapshots| - 1];
              && r.value.startingEquity == first.equity && r.value.endingEquity == last.equity
              && first.equity * (1.0 + r.value.totalReturn) == (if first.equity == 0.0 then 0.0 else last.equity)
              && r.value.realizedPnl == last.realizedPnl && r.value.unrealizedPnl == last.unrealizedPnl
  {
    hide Measurable, IsMaximumDrawdown, IsPeak;
    var drawdown := Calculate(Equities(snapshots));
    if drawdown.Err? {
      return Err(drawdown.error);
    }
    if snapshots == [] {
      return ReportChecked(Report(0.0, 0.0, 0.0, 0.0, 0.0, 0, drawdown.value));
    }
    var first, last := snapshots[0], snapshots[|snapshots| - 1];
    var totalReturn := if first.equity == 0.0 then 0.0 else (last.equity - first.equity) / first.equity;
    ReturnRecovers(first.equity, last.equity);
    r := ReportChecked(Report(first.equity, last.equity, totalReturn, last.realizedPnl, last.unrealizedPnl,
                              |snapshots|, drawdown.value));
  }

  lemma ReturnRecovers(first: real, last: real)
    ensures first != 0.0 ==> first * (1.0 + (last - first) / first) == last
  {
  }
}
